/** The pipeline and the store put together: a parse job runs its command on the
    ten tables, critical section by critical section, while every other thread goes
    on, and hands the reply it gets there to the write job. */
module WholeServer {
  import opened ByteStrings
  import opened RespObject
  import opened Commands
  import opened Refinement
  import RespSyntax
  import RespLaws
  import Connections
  import P = Pipeline
  import PI = PipelineInvariant
  import PL = PipelineLaws
  import C = Clients
  import D = Dialogues
  import Wire
  import RespGrammar

  /** For a reply that a parse job recorded: the state it was recorded in, the worker
      that ran the job, the bytes answered, and the stretch of the store's log from the
      start of the command to the reply. */
  datatype Receipt =
    Receipt(ref: P.Ref, w: nat, batch: Bytes, reply: Reply, since: nat, until: nat)

  /** Worker `w` of the pipeline is client `w` of the store. The receipts are history. */
  datatype System = System(net: P.Server, store: C.State, receipts: seq<Receipt>)

  datatype Action =
    | Net(a: P.Action)    // any step of the pipeline but the recording of a reply
    | RunCommand(w: nat)  // all of a GET or SET; the start of a DEL
    | DelOne(w: nat)
    | DelEnd(w: nat)
    | Answer(w: nat)      // the reply, or the parse error, is recorded

  function Start(pools: seq<P.PoolName>): System {
    System(P.Start(pools), C.Start(|pools|), [])
  }

  function BatchOf(net: P.Server, w: nat): Bytes
    requires P.BusyAt(net, w, P.ParseStart)
  {
    net.conns[net.workers[w].task.ref].readData
  }

  predicate HasReply(s: System, w: nat) {
    && P.BusyAt(s.net, w, P.ParseStart)
    && w < |s.store.clients|
    && (P.ParsedCommand(BatchOf(s.net, w)).Some? ==> s.store.clients[w].Done?)
  }

  function ReplyOf(s: System, w: nat): Reply
    requires HasReply(s, w)
  {
    var batch := BatchOf(s.net, w);
    if P.ParsedCommand(batch).Some? then s.store.clients[w].reply else ParseErrorReply(batch)
  }

  function SinceOf(s: System, w: nat): nat
    requires HasReply(s, w)
  {
    if P.ParsedCommand(BatchOf(s.net, w)).Some? then s.store.clients[w].since else |s.store.log|
  }

  function ReceiptFor(s: System, w: nat): Receipt
    requires HasReply(s, w)
  {
    Receipt(s.net.workers[w].task.ref, w, BatchOf(s.net, w), ReplyOf(s, w), SinceOf(s, w), |s.store.log|)
  }

  /** The bytes are a C string. The reply is the parse error for bytes that do not parse, and otherwise what the
      worker's own critical sections in the stretch of the log add up to: they are
      exactly those of the command that the bytes parse to. */
  predicate Genuine(r: Receipt, log: seq<C.Event>) {
    && r.since <= r.until <= |log| && NulFree(r.batch)
    && match P.ParsedCommand(r.batch)
       case None => r.reply == ParseErrorReply(r.batch)
       case Some(command) => C.AddsUp(command, r.reply, C.Own(log[r.since..r.until], r.w))
  }

  predicate Enabled(s: System, a: Action) {
    match a
    case Net(a') => !a'.Execute? && P.Enabled(s.net, a')
    case RunCommand(w) =>
      && P.BusyAt(s.net, w, P.ParseStart)
      && P.ParsedCommand(BatchOf(s.net, w)).Some?
      && C.Enabled(s.store, C.Begin(w, P.ParsedCommand(BatchOf(s.net, w)).value))
    case DelOne(w) => C.Enabled(s.store, C.DelOne(w))
    case DelEnd(w) => C.Enabled(s.store, C.DelEnd(w))
    case Answer(w) => HasReply(s, w) && P.Enabled(s.net, P.Execute(w, ReplyOf(s, w)))
  }

  /** The step that the pipeline sees, and the step that the store sees. */
  function NetPart(s: System, a: Action): seq<P.Action>
    requires Enabled(s, a)
  {
    match a
    case Net(a') => [a']
    case Answer(w) => [P.Execute(w, ReplyOf(s, w))]
    case _ => []
  }

  function StorePart(s: System, a: Action): seq<C.Action>
    requires Enabled(s, a)
  {
    match a
    case Net(_) => []
    case RunCommand(w) => [C.Begin(w, P.ParsedCommand(BatchOf(s.net, w)).value)]
    case DelOne(w) => [C.DelOne(w)]
    case DelEnd(w) => [C.DelEnd(w)]
    case Answer(w) => if s.store.clients[w].Done? then [C.TakeReply(w)] else []
  }

  function Step(s: System, a: Action): System
    requires Enabled(s, a)
  {
    var net, store := NetPart(s, a), StorePart(s, a);
    System(if net == [] then s.net else P.Step(s.net, net[0]),
           if store == [] then s.store else C.Step(s.store, store[0]),
           s.receipts + if a.Answer? then [ReceiptFor(s, a.w)] else [])
  }

  predicate IsRun(s: System, actions: seq<Action>)
    decreases |actions|
  {
    actions != [] ==> Enabled(s, actions[0]) && IsRun(Step(s, actions[0]), actions[1..])
  }

  function After(s: System, actions: seq<Action>): System
    requires IsRun(s, actions)
    decreases |actions|
  {
    if actions == [] then s else After(Step(s, actions[0]), actions[1..])
  }

  // ---- a run of the whole is a run of each part ----

  function NetActions(s: System, actions: seq<Action>): seq<P.Action>
    requires IsRun(s, actions)
    decreases |actions|
  {
    if actions == [] then [] else
      NetPart(s, actions[0]) + NetActions(Step(s, actions[0]), actions[1..])
  }

  function StoreActions(s: System, actions: seq<Action>): seq<C.Action>
    requires IsRun(s, actions)
    decreases |actions|
  {
    if actions == [] then [] else
      StorePart(s, actions[0]) + StoreActions(Step(s, actions[0]), actions[1..])
  }

  lemma {:induction false} NetRuns(s: System, actions: seq<Action>)
    requires IsRun(s, actions)
    ensures P.IsRun(s.net, NetActions(s, actions))
    ensures P.After(s.net, NetActions(s, actions)) == After(s, actions).net
    decreases |actions|
  {
    hide P.Step, P.Enabled, C.Step, C.Enabled;
    if actions != [] {
      var part := NetPart(s, actions[0]);
      var rest := NetActions(Step(s, actions[0]), actions[1..]);
      NetRuns(Step(s, actions[0]), actions[1..]);
      if part == [] {
        assert part + rest == rest;
      } else {
        assert (part + rest)[0] == part[0] && (part + rest)[1..] == rest;
      }
    }
  }

  lemma CanTake(store: C.State, c: nat)
    requires c < |store.clients| && store.clients[c].Done?
    ensures C.Enabled(store, C.TakeReply(c))
  {
  }

  lemma {:induction false} StoreRuns(s: System, actions: seq<Action>)
    requires IsRun(s, actions)
    ensures C.IsRun(s.store, StoreActions(s, actions))
    ensures C.After(s.store, StoreActions(s, actions)) == After(s, actions).store
    decreases |actions|
  {
    hide P.Step, P.Enabled, C.Step, C.Enabled;
    if actions != [] {
      var part := StorePart(s, actions[0]);
      var rest := StoreActions(Step(s, actions[0]), actions[1..]);
      StoreRuns(Step(s, actions[0]), actions[1..]);
      if actions[0].Answer? && part != [] {
        CanTake(s.store, actions[0].w);
      }
      if part == [] {
        assert part + rest == rest;
      } else {
        assert (part + rest)[0] == part[0] && (part + rest)[1..] == rest;
      }
    }
  }

  // ---- a command in the store belongs to the batch of its parse job ----

  predicate ClientPlaced(s: System, w: nat) {
    w < |s.store.clients| && !s.store.clients[w].Idle? ==>
      && P.BusyAt(s.net, w, P.ParseStart)
      && P.ParsedCommand(BatchOf(s.net, w)) == Some(s.store.clients[w].command)
  }

  ghost predicate Inv(s: System, at: PI.Places) {
    && PI.Inv(s.net, at)
    && C.Inv(s.store)
    && |s.store.clients| == |s.net.workers|
    && forall w | 0 <= w < |s.store.clients| :: ClientPlaced(s, w)
  }

  /** While a parse job works, no step of anybody else touches its place or the
      bytes it works on. */
  lemma ParseJobIsUndisturbed(net: P.Server, at: PI.Places, a: P.Action, w: nat)
    requires PI.Inv(net, at) && P.Enabled(net, a) && P.BusyAt(net, w, P.ParseStart)
    requires a.Execute? ==> a.w != w
    ensures P.BusyAt(P.Step(net, a), w, P.ParseStart)
    ensures BatchOf(P.Step(net, a), w) == BatchOf(net, w)
  {
    hide PI.Inv, P.Enabled, P.Step;
    NextIsFresh(net, at);
    PL.OneWorkerMoves(net, a);
    PL.OneStateMoves(net, a);
    if PL.OfWorker(a) || a.StartJob? {
      NotItsOwnStep(net, a, w);
      if net.workers[a.w].task.Busy? {
        PL.DifferentRefs(net, at, w, a.w);
      }
    }
  }

  lemma NextIsFresh(net: P.Server, at: PI.Places)
    requires PI.Inv(net, at)
    ensures net.nextRef !in net.conns
  {
    hide PI.AcceptorPlaced, PI.WaitingPlaced, PI.EpollerPlaced, PI.QueuesPlaced, PI.WorkersPlaced,
      PI.MapPlaced, PI.StatesInOrder, PI.SocketsOf, PI.KernelInStep;
  }

  lemma NotItsOwnStep(net: P.Server, a: P.Action, w: nat)
    requires P.Enabled(net, a) && P.BusyAt(net, w, P.ParseStart)
    requires PL.OfWorker(a) || a.StartJob?
    requires a.Execute? ==> a.w != w
    ensures a.w != w
  {
  }

  lemma NetStepKeepsInv(s: System, at: PI.Places, a: P.Action) returns (at': PI.Places)
    requires Inv(s, at) && !a.Execute? && P.Enabled(s.net, a)
    ensures Inv(Step(s, Net(a)), at')
  {
    hide PI.Inv, C.Inv, P.Enabled, P.ParsedCommand;
    at' := PL.StepKeepsInv(s.net, at, a);
    var s' := Step(s, Net(a));
    PL.OneWorkerMoves(s.net, a);
    forall w | 0 <= w < |s'.store.clients|
      ensures ClientPlaced(s', w)
    {
      assert ClientPlaced(s, w);
      if !s.store.clients[w].Idle? {
        ParseJobIsUndisturbed(s.net, at, a, w);
      }
    }
  }

  /** A step of the store changes one client, and only it. */
  lemma StoreStepFrame(store: C.State, a: C.Action)
    requires C.Enabled(store, a)
    ensures var store' := C.Step(store, a);
            && |store'.clients| == |store.clients|
            && (forall w | 0 <= w < |store.clients| && w != a.c :: store'.clients[w] == store.clients[w])
            && (a.Begin? ==> !store'.clients[a.c].Idle? && store'.clients[a.c].command == a.command)
            && (a.DelOne? || a.DelEnd? ==>
                 !store.clients[a.c].Idle? && !store'.clients[a.c].Idle?
                 && store'.clients[a.c].command == store.clients[a.c].command)
            && (a.TakeReply? ==> store'.clients[a.c].Idle?)
  {
    hide StoreDel, ExecuteGet, ExecuteSet, KeysOf, Classify, Indexable;
  }

  lemma StoreOnlyKeepsInv(s: System, at: PI.Places, a: Action)
    requires Inv(s, at) && Enabled(s, a) && !a.Net? && !a.Answer?
    ensures Inv(Step(s, a), at)
  {
    hide PI.Inv, C.Inv, C.Enabled, C.Step, P.ParsedCommand;
    var part := StorePart(s, a)[0];
    C.StepKeepsInv(s.store, part);
    StoreStepFrame(s.store, part);
    var s' := Step(s, a);
    assert s'.net == s.net;
    forall w | 0 <= w < |s'.store.clients|
      ensures ClientPlaced(s', w)
    {
      assert ClientPlaced(s, w);
    }
  }

  lemma AnswerKeepsInv(s: System, at: PI.Places, w: nat) returns (at': PI.Places)
    requires Inv(s, at) && Enabled(s, Answer(w))
    ensures Inv(Step(s, Answer(w)), at')
  {
    hide PI.Inv, C.Inv, C.Enabled, C.Step, P.ParsedCommand, P.Enabled;
    var execute := P.Execute(w, ReplyOf(s, w));
    at' := PL.StepKeepsInv(s.net, at, execute);
    PL.OneWorkerMoves(s.net, execute);
    var s' := Step(s, Answer(w));
    assert ClientPlaced(s, w);
    if s.store.clients[w].Done? {
      assert C.Enabled(s.store, C.TakeReply(w)) by { CanTake(s.store, w); }
      C.StepKeepsInv(s.store, C.TakeReply(w));
      StoreStepFrame(s.store, C.TakeReply(w));
    }
    forall v | 0 <= v < |s'.store.clients|
      ensures ClientPlaced(s', v)
    {
      assert ClientPlaced(s, v);
      if v != w && !s.store.clients[v].Idle? {
        ParseJobIsUndisturbed(s.net, at, execute, v);
      }
    }
  }

  // ---- receipts ----

  /** The replies recorded, in order. */
  function AnswersIn(history: seq<P.Note>): seq<P.Note> {
    if history == [] then [] else
      var last := history[|history| - 1];
      AnswersIn(history[..|history| - 1]) + if last.Answered? then [last] else []
  }

  function NoteOf(r: Receipt): P.Note { P.Answered(r.ref, r.batch, r.reply) }

  function NotesOf(receipts: seq<Receipt>): seq<P.Note> {
    seq(|receipts|, i requires 0 <= i < |receipts| => NoteOf(receipts[i]))
  }

  predicate ReceiptsInOrder(s: System) {
    && AnswersIn(s.net.history) == NotesOf(s.receipts)
    && forall i | 0 <= i < |s.receipts| :: Genuine(s.receipts[i], s.store.log)
  }

  lemma AnswersWithOneMore(history: seq<P.Note>, note: P.Note)
    ensures AnswersIn(history + [note]) == AnswersIn(history) + if note.Answered? then [note] else []
  {
    assert (history + [note])[..|history + [note]| - 1] == history;
  }

  lemma NoAnswerNoted(net: P.Server, a: P.Action)
    requires P.Enabled(net, a) && !a.Execute?
    ensures AnswersIn(P.Step(net, a).history) == AnswersIn(net.history)
  {
    hide Answers, Connections.WireBytes, P.ParsedCommand, AnswersIn;
    var history := P.Step(net, a).history;
    if a.Read? || a.Write? {
      if |history| > |net.history| {
        AnswersWithOneMore(net.history, history[|net.history|]);
      } else {
        assert history == net.history;
      }
    }
  }

  /** The log only grows, so a genuine receipt stays one. */
  lemma StoreLogGrows(store: C.State, a: C.Action)
    requires C.Enabled(store, a)
    ensures store.log <= C.Step(store, a).log
    ensures a.TakeReply? ==> C.Step(store, a).log == store.log
  {
    hide StoreDel, ExecuteGet, ExecuteSet, KeysOf, Classify, Indexable;
  }

  lemma StaysGenuine(r: Receipt, log: seq<C.Event>, log': seq<C.Event>)
    requires Genuine(r, log) && log <= log'
    ensures Genuine(r, log')
  {
    assert log'[r.since..r.until] == log[r.since..r.until];
  }

  lemma StepKeepsReceipts(s: System, at: PI.Places, a: Action)
    requires Inv(s, at) && ReceiptsInOrder(s) && Enabled(s, a)
    ensures ReceiptsInOrder(Step(s, a))
  {
    hide Inv, Genuine, C.Step, C.Enabled, P.Step, P.Enabled, HasReply, AnswersIn;
    var s' := Step(s, a);
    var part := StorePart(s, a);
    if part != [] {
      StorePartIsEnabled(s, a);
      StoreLogGrows(s.store, part[0]);
    }
    forall i | 0 <= i < |s.receipts|
      ensures Genuine(s.receipts[i], s'.store.log)
    {
      StaysGenuine(s.receipts[i], s.store.log, s'.store.log);
    }
    match a
    case Net(a') => NoAnswerNoted(s.net, a');
    case Answer(w) =>
      RepliesFit(s, at, w);
      AnswerIsNoted(s.net, w, ReplyOf(s, w));
      AnswersWithOneMore(s.net.history, NoteOf(ReceiptFor(s, w)));
      assert NotesOf(s'.receipts) == NotesOf(s.receipts) + [NoteOf(ReceiptFor(s, w))];
    case _ =>
  }

  lemma StorePartIsEnabled(s: System, a: Action)
    requires Enabled(s, a) && StorePart(s, a) != []
    ensures C.Enabled(s.store, StorePart(s, a)[0])
  {
    hide P.Enabled, P.ParsedCommand;
    if a.Answer? {
      CanTake(s.store, a.w);
    }
  }

  lemma AnswerIsNoted(net: P.Server, w: nat, reply: Reply)
    requires P.Enabled(net, P.Execute(w, reply))
    ensures P.BusyAt(net, w, P.ParseStart)
    ensures P.Step(net, P.Execute(w, reply)).history
         == net.history + [P.Answered(net.workers[w].task.ref, BatchOf(net, w), reply)]
  {
    hide Answers, Connections.Record, P.ParsedCommand;
  }

  lemma {:induction false} RunKeepsInv(s: System, at: PI.Places, actions: seq<Action>)
    returns (at': PI.Places)
    requires Inv(s, at) && ReceiptsInOrder(s) && IsRun(s, actions)
    ensures Inv(After(s, actions), at') && ReceiptsInOrder(After(s, actions))
    decreases |actions|
  {
    hide Inv, Enabled, Step, ReceiptsInOrder;
    at' := at;
    if actions != [] {
      var a, next := actions[0], at;
      StepKeepsReceipts(s, at, a);
      if a.Net? {
        next := NetActionKeepsInv(s, at, a);
      } else if a.Answer? {
        next := AnswerKeepsInv(s, at, a.w);
      } else {
        StoreOnlyKeepsInv(s, at, a);
      }
      at' := RunKeepsInv(Step(s, a), next, actions[1..]);
    }
  }

  lemma NetActionKeepsInv(s: System, at: PI.Places, a: Action) returns (at': PI.Places)
    requires Inv(s, at) && Enabled(s, a) && a.Net?
    ensures Inv(Step(s, a), at')
  {
    hide Inv, Step, P.Enabled;
    at' := NetStepKeepsInv(s, at, a.a);
  }

  // ---- the theorem ----

  /** Over every interleaving of all threads of the server, from start-up: the
      pipeline goes through a run of its own, so all its laws apply; the store goes
      through one too, so the tables hold what one map holds after the critical
      sections in lock order, and every result seen by a command is the one that map
      explains; and a reply found there is always one that the pipeline expects for
      the bytes that the same parse job read, and what that job's own critical
      sections add up to. */
  lemma TheServerIsOneMap(pools: seq<P.PoolName>, actions: seq<Action>)
    requires IsRun(Start(pools), actions)
    ensures var s := After(Start(pools), actions);
            var net := NetActions(Start(pools), actions);
            && P.IsRun(P.Start(pools), net) && P.After(P.Start(pools), net) == s.net
            && Partitioned(s.store.tables)
            && Abs(s.store.tables) == C.Replay(s.store.log)
            && C.Explained(s.store.log)
            && |Abs(s.store.tables)|
               == C.Creations(s.store.log) - s.store.replied - C.InProgress(s.store.clients)
            && (forall w | HasReply(s, w) :: Answers(BatchOf(s.net, w), ReplyOf(s, w)))
            && (forall w | HasReply(s, w) :: Enabled(s, Answer(w)))
            && (forall w | HasReply(s, w) :: Genuine(ReceiptFor(s, w), s.store.log))
  {
    NetRuns(Start(pools), actions);
    StartKeepsInv(pools);
    var at := RunKeepsInv(Start(pools), map[], actions);
    var s := After(Start(pools), actions);
    hide IsRun, After, PI.Inv, Partitioned, Abs, C.Explained, C.Creations, Enabled, Answers,
      Genuine, HasReply;
    forall w | HasReply(s, w)
      ensures Answers(BatchOf(s.net, w), ReplyOf(s, w)) && Enabled(s, Answer(w))
      ensures Genuine(ReceiptFor(s, w), s.store.log)
    {
      RepliesFit(s, at, w);
    }
  }

  lemma StartKeepsInv(pools: seq<P.PoolName>)
    ensures Inv(Start(pools), map[]) && ReceiptsInOrder(Start(pools))
  {
    hide PI.Inv;
    PL.StartInv(pools);
    C.StartInv(|pools|);
  }

  /** What the invariant says of one worker's command. */
  lemma ClientFacts(s: System, at: PI.Places, w: nat)
    requires Inv(s, at) && w < |s.store.clients|
    ensures ClientPlaced(s, w) && C.WellFormed(s.store.clients[w]) && C.AccountedAt(s.store, w)
  {
    hide PI.Inv, Partitioned, Abs, C.Explained, C.Creations, C.AccountedAt, C.WellFormed, ClientPlaced;
  }

  lemma ReplyAnswersBatch(s: System, w: nat)
    requires HasReply(s, w) && ClientPlaced(s, w) && C.WellFormed(s.store.clients[w])
    ensures Answers(BatchOf(s.net, w), ReplyOf(s, w))
  {
    hide PossibleReply, RespSyntax.GetObject, KeysOf, AllIndexable;
  }

  lemma ExecuteIsEnabled(net: P.Server, w: nat, reply: Reply)
    requires P.BusyAt(net, w, P.ParseStart) && Answers(BatchOf(net, w), reply)
    ensures P.Enabled(net, P.Execute(w, reply))
  {
    hide Answers;
  }

  lemma RepliesFit(s: System, at: PI.Places, w: nat)
    requires Inv(s, at) && HasReply(s, w)
    ensures Answers(BatchOf(s.net, w), ReplyOf(s, w)) && Enabled(s, Answer(w))
    ensures Genuine(ReceiptFor(s, w), s.store.log)
  {
    hide Inv, Genuine, Answers, C.AccountedAt, C.WellFormed, ClientPlaced, P.Enabled, ReplyOf, ReceiptFor, BatchOf;
    ClientFacts(s, at, w);
    ReplyAnswersBatch(s, w);
    ExecuteIsEnabled(s.net, w, ReplyOf(s, w));
    ReceiptIsGenuine(s, at, w);
  }

  lemma BatchIsText(s: System, at: PI.Places, w: nat)
    requires Inv(s, at) && P.BusyAt(s.net, w, P.ParseStart)
    ensures NulFree(BatchOf(s.net, w))
  {
    hide PI.Inv, C.Inv, ClientPlaced, NulFree, PI.SocketsOf;
    PI.TaskFacts(s.net, at, w);
  }

  lemma ReceiptIsGenuine(s: System, at: PI.Places, w: nat)
    requires Inv(s, at) && HasReply(s, w)
    ensures Genuine(ReceiptFor(s, w), s.store.log)
  {
    hide Inv, C.AddsUp, C.Own, C.WellFormed, NulFree;
    ClientFacts(s, at, w);
    BatchIsText(s, at, w);
    assert s.store.log[SinceOf(s, w)..|s.store.log|] == s.store.log[SinceOf(s, w)..];
  }

  // ---- the messages ----

  lemma {:induction false} OwnMembers(history: seq<P.Note>, note: P.Note)
    ensures note in D.Own(history, note.ref) <==> note in history
  {
    if history != [] {
      OwnMembers(history[..|history| - 1], note);
      assert history == history[..|history| - 1] + [history[|history| - 1]];
    }
  }

  lemma {:induction false} AnswerMembers(history: seq<P.Note>, note: P.Note)
    ensures note in AnswersIn(history) <==> note in history && note.Answered?
  {
    if history != [] {
      AnswerMembers(history[..|history| - 1], note);
      assert history == history[..|history| - 1] + [history[|history| - 1]];
    }
  }

  /** A message on a connection is the reply of some receipt for that connection. */
  predicate IsReplyOf(note: P.Note, r: Receipt) {
    note.Told? && r.ref == note.ref && note.bytes == CString(Serialize(r.reply.value))
  }

  /** Over every interleaving of all threads of the server, from start-up, on every
      connection: the batches read, the replies recorded for them and the messages sent
      take turns; the replies recorded are, one for one, those of the receipts; and each
      receipt is genuine: its reply is what the store's log says of its command. So each
      message is, byte for byte, the store's own reply to the request it answers. */
  lemma EveryMessageIsTheReply(pools: seq<P.PoolName>, actions: seq<Action>)
    requires IsRun(Start(pools), actions)
    ensures var s := After(Start(pools), actions);
            && (forall ref :: D.InTurn(D.Own(s.net.history, ref)))
            && AnswersIn(s.net.history) == NotesOf(s.receipts)
            && (forall i | 0 <= i < |s.receipts| :: Genuine(s.receipts[i], s.store.log))
            && (forall k | 0 <= k < |s.net.history| && s.net.history[k].Told? ::
                 exists i :: 0 <= i < |s.receipts| && IsReplyOf(s.net.history[k], s.receipts[i]))
  {
    hide IsRun, After, Inv, D.InTurn, D.Own, Genuine, AnswersIn, NotesOf, IsReplyOf, P.IsRun, P.After;
    StartKeepsInv(pools);
    var at := RunKeepsInv(Start(pools), map[], actions);
    var s := After(Start(pools), actions);
    NetRuns(Start(pools), actions);
    forall ref
      ensures D.InTurn(D.Own(s.net.history, ref))
    {
      D.RequestsDoNotMix(pools, NetActions(Start(pools), actions), ref);
    }
    forall k | 0 <= k < |s.net.history| && s.net.history[k].Told?
      ensures exists i :: 0 <= i < |s.receipts| && IsReplyOf(s.net.history[k], s.receipts[i])
    {
      var i := ReceiptOf(s, s.net.history[k]);
    }
  }

  lemma ReceiptOf(s: System, note: P.Note) returns (i: nat)
    requires D.InTurn(D.Own(s.net.history, note.ref)) && AnswersIn(s.net.history) == NotesOf(s.receipts)
    requires note in s.net.history && note.Told?
    ensures i < |s.receipts| && IsReplyOf(note, s.receipts[i])
  {
    hide Serialize, CString, Answers, D.Own, AnswersIn;
    var own := D.Own(s.net.history, note.ref);
    OwnMembers(s.net.history, note);
    var k :| 0 <= k < |own| && own[k] == note;
    assert D.Fits(own, k);
    var answer := own[k - 1];
    OwnRef(s.net.history, note.ref, answer);
    OwnMembers(s.net.history, answer);
    AnswerMembers(s.net.history, answer);
    i :| 0 <= i < |s.receipts| && NotesOf(s.receipts)[i] == answer;
  }

  lemma {:induction false} OwnRef(history: seq<P.Note>, ref: P.Ref, note: P.Note)
    requires note in D.Own(history, ref)
    ensures note.ref == ref
  {
    if history != [] && note in D.Own(history[..|history| - 1], ref) {
      OwnRef(history[..|history| - 1], ref, note);
    }
  }


  // ---- progress ----

  /** Worker `w` has a next step of its command: to begin it, to delete one more key,
      to end the DEL, or to record the reply. */
  predicate CanGoOn(s: System, w: nat) {
    Enabled(s, RunCommand(w)) || Enabled(s, DelOne(w)) || Enabled(s, DelEnd(w)) || Enabled(s, Answer(w))
  }

  lemma ParseJobGoesOn(s: System, at: PI.Places, w: nat)
    requires Inv(s, at) && P.BusyAt(s.net, w, P.ParseStart) && Servable(BatchOf(s.net, w))
    ensures CanGoOn(s, w)
  {
    hide PI.Inv, C.Inv, Answers, Servable, C.Step, C.AccountedAt;
    ClientFacts(s, at, w);
    if P.ParsedCommand(BatchOf(s.net, w)).None? || s.store.clients[w].Done? {
      hide C.Enabled;
      assert HasReply(s, w);
      RepliesFit(s, at, w);
    } else if s.store.clients[w].Idle? {
      CommandMayBegin(BatchOf(s.net, w));
    }
  }

  lemma CommandMayBegin(batch: Bytes)
    requires Servable(batch) && P.ParsedCommand(batch).Some?
    ensures var command := P.ParsedCommand(batch).value; Canonical(command) && AllIndexable(KeysOf(command))
  {
    hide RespSyntax.GetObject, Canonical, Indexable, KeysOf;
    RespLaws.ParsedIsCanonical(batch);
  }

  /** No thread is ever stuck. The accepting thread, the epoll thread and every worker
      outside a parse job can take their next step in the pipeline; and every parse job
      whose keys index the tables can take the next step of its command. */
  lemma NobodyIsStuck(pools: seq<P.PoolName>, actions: seq<Action>)
    requires IsRun(Start(pools), actions)
    ensures var s := After(Start(pools), actions);
            && (s.net.acceptor != P.Accepting ==> Enabled(s, Net(P.AcceptorNext)))
            && PL.EpollerCanMove(s.net)
            && (forall w | 0 <= w < |s.net.workers| ::
                 if !P.BusyAt(s.net, w, P.ParseStart) then PL.WorkerCanMove(s.net, w)
                 else Servable(BatchOf(s.net, w)) ==> CanGoOn(s, w))
  {
    hide IsRun, After, Inv, PL.EpollerCanMove, PL.WorkerCanMove, Servable, CanGoOn;
    StartKeepsInv(pools);
    var at := RunKeepsInv(Start(pools), map[], actions);
    var s := After(Start(pools), actions);
    NetRuns(Start(pools), actions);
    PL.NobodyIsStuck(pools, NetActions(Start(pools), actions));
    forall w | 0 <= w < |s.net.workers| && P.BusyAt(s.net, w, P.ParseStart) && Servable(BatchOf(s.net, w))
      ensures CanGoOn(s, w)
    {
      ParseJobGoesOn(s, at, w);
    }
  }


  // ---- the messages in bytes ----

  /** What a client is sent for a command, given what the worker saw in its critical
      sections: "+OK" for a SET, a colon and the count of the keys found for a DEL, the
      value seen for a GET, and "-Invalid command" for any other value. */
  ghost predicate CommandInBytes(command: Object, own: seq<C.Event>, bytes: Bytes) {
    if Wire.IsSet(command) then bytes == [43, 79, 75, 13, 10]
    else if Wire.IsDel(command) then
      exists count: nat ::
        C.AreDels(own, KeysOf(command), count) && bytes == [58] + Decimal(count) + [13, 10]
    else if Wire.IsGet(command) then
      && |own| == 1 && own[0].DidGet? && own[0].key == Wire.KeyOf(command)
      && bytes == CString(Serialize(own[0].reply.value))
    else
      bytes == [45] + [73, 110, 118, 97, 108, 105, 100, 32, 99, 111, 109, 109, 97, 110, 100] + [13, 10]
  }

  /** The bytes of a message for a batch that encodes a value. */
  lemma CommandReceiptInBytes(r: Receipt, log: seq<C.Event>, command: Object, n: nat)
    requires Genuine(r, log) && RespGrammar.Encodes(r.batch, command, n)
    ensures CommandInBytes(command, C.Own(log[r.since..r.until], r.w), CString(Serialize(r.reply.value)))
  {
    hide RespSyntax.GetObject, RespGrammar.Encodes, Serialize, CString, C.Own, C.AreDels, ToText, Canonical;
    var own := C.Own(log[r.since..r.until], r.w);
    Wire.EncodedIsParsed(r.batch, command, n);
    Wire.CommandsByTheirWords(command);
    Wire.TextsOfReplies();
    match Classify(command)
    case SetCommand => Wire.SentBytes([79, 75], 0);
    case DelCommand =>
      C.DelsAreCounted(own, KeysOf(command), r.reply.value.number);
      Wire.SentBytes([], r.reply.value.number);
    case InvalidCommand => Wire.RefusalIsSent();
    case GetCommand =>
  }

  /** The bytes of a message for a batch that encodes none: the error that quotes it. */
  lemma UnparsedReceiptInBytes(r: Receipt, log: seq<C.Event>)
    requires Genuine(r, log)
    requires forall v: Object, n: nat :: !RespGrammar.Encodes(r.batch, v, n)
    ensures CString(Serialize(r.reply.value))
         == [45] + ([85, 110, 97, 98, 108, 101, 32, 116, 111, 32, 112, 97, 114, 115, 101, 32, 39]
                    + r.batch + [39, 46, 32, 84, 114, 121, 32, 97, 103, 97, 105, 110, 46]) + [13, 10]
  {
    hide RespSyntax.GetObject, RespGrammar.Encodes, Serialize, CString;
    Wire.NoValueExactly(r.batch);
    Wire.UnparsedOnTheWire(EMPTY_TABLES, r.batch);
  }
}

/** What goes over one connection: the requests read, the replies recorded and the
    messages sent, over all interleavings of the pipeline. */
module Dialogues {
  import opened ByteStrings
  import opened RespObject
  import opened Commands
  import opened Connections
  import opened Pipeline
  import opened PipelineInvariant
  import opened PipelineLaws

  /** What happened on one connection. */
  function Own(history: seq<Note>, ref: Ref): seq<Note> {
    if history == [] then [] else
      var last := history[|history| - 1];
      Own(history[..|history| - 1], ref) + if last.ref == ref then [last] else []
  }

  /** A batch is read, then a reply to this batch is recorded, then the bytes of this
      reply are sent, and so on, unless the reply closes the connection. */
  predicate InTurn(own: seq<Note>) {
    forall k | 0 <= k < |own| :: Fits(own, k)
  }

  predicate Fits(own: seq<Note>, k: nat)
    requires k < |own|
  {
    if k % 3 == 0 then
      own[k].Asked? && (k > 0 ==> own[k - 2].Answered? && !own[k - 2].reply.fatal)
    else if k % 3 == 1 then
      && own[k - 1].Asked? && own[k].Answered? && own[k].batch == own[k - 1].batch
      && Answers(own[k].batch, own[k].reply)
    else
      own[k - 1].Answered? && own[k].Told? && own[k].bytes == CString(Serialize(own[k - 1].reply.value))
  }

  // ---- the invariant ----

  /** How far a dialogue has come, from the contents of the state. */
  predicate Matches(c: Conn, own: seq<Note>) {
    if c.response.Some? then
      && |own| % 3 != 1 && |own| >= 2
      && var answered := own[if |own| % 3 == 2 then |own| - 1 else |own| - 2];
         answered.Answered? && answered.batch == c.readData
         && answered.reply == Reply(c.isError, c.response.value)
    else if c.readData == [] then
      |own| % 3 == 0 && (own != [] ==> own[|own| - 2].Answered? && !own[|own| - 2].reply.fatal)
    else |own| % 3 == 1 && own[|own| - 1].Asked? && own[|own| - 1].batch == c.readData
  }

  /** And from the place of the job. */
  predicate PcFits(pc: Pc, own: seq<Note>) {
    (pc.ParseDone? || pc.WriteStart? ==> |own| % 3 == 2) && (pc.WriteDone? ==> |own| % 3 == 0)
  }

  predicate RefFits(c: Conn, own: seq<Note>) {
    InTurn(own) && Matches(c, own)
  }

  predicate WorkerFits(s: Server, w: nat)
    requires w < |s.workers|
  {
    s.workers[w].task.Busy? ==> PcFits(s.workers[w].task.pc, Own(s.history, s.workers[w].task.ref))
  }

  predicate EntryFits(s: Server, ref: Ref) { |Own(s.history, ref)| % 3 == 2 }

  ghost predicate DialoguesFit(s: Server) {
    && (forall ref | ref in s.conns :: RefFits(s.conns[ref], Own(s.history, ref)))
    && (forall w | 0 <= w < |s.workers| :: WorkerFits(s, w))
    && WritePool in s.queues
    && (forall k | 0 <= k < |s.queues[WritePool]| :: EntryFits(s, s.queues[WritePool][k]))
    && (forall k | 0 <= k < |s.history| :: s.history[k].ref in s.conns)
  }

  lemma OwnNote(history: seq<Note>, note: Note, ref: Ref)
    ensures Own(history + [note], ref) == Own(history, ref) + if note.ref == ref then [note] else []
  {
    assert (history + [note])[..|history + [note]| - 1] == history;
  }

  lemma {:induction false} NoNotes(history: seq<Note>, ref: Ref)
    requires forall k | 0 <= k < |history| :: history[k].ref != ref
    ensures Own(history, ref) == []
  {
    if history != [] {
      NoNotes(history[..|history| - 1], ref);
    }
  }

  lemma OneMore(own: seq<Note>, note: Note)
    requires InTurn(own) && Fits(own + [note], |own|)
    ensures InTurn(own + [note])
  {
    hide Answers, Serialize, CString;
    forall k | 0 <= k < |own + [note]|
      ensures Fits(own + [note], k)
    {
      assert k < |own| ==> Fits(own, k);
    }
  }

  // ---- steps ----

  /** A step with nothing to note, which changes at most the mutex of old states. */
  lemma QuietStep(s: Server, s': Server)
    requires DialoguesFit(s)
    requires s'.history == s.history && s'.workers == s.workers && WritePool in s'.queues
    requires s'.queues[WritePool] == s.queues[WritePool]
    requires forall ref | ref in s.conns ::
               ref in s'.conns && s'.conns[ref].(token := s.conns[ref].token) == s.conns[ref]
    requires forall ref | ref in s'.conns && ref !in s.conns :: Clean(s'.conns[ref])
    ensures DialoguesFit(s')
  {
    hide InTurn, Own, Fits;
    forall ref | ref in s'.conns
      ensures RefFits(s'.conns[ref], Own(s'.history, ref))
    {
      if ref in s.conns {
        assert RefFits(s.conns[ref], Own(s.history, ref));
      } else {
        NoNotes(s.history, ref);
        assert InTurn([]) by { NothingIsInTurn(); }
      }
    }
    forall w | 0 <= w < |s'.workers|
      ensures WorkerFits(s', w)
    {
      assert WorkerFits(s, w);
    }
    forall k | 0 <= k < |s'.queues[WritePool]|
      ensures EntryFits(s', s'.queues[WritePool][k])
    {
      assert EntryFits(s, s.queues[WritePool][k]);
    }
  }

  lemma NothingIsInTurn()
    ensures InTurn([])
  {
  }

  lemma ResetMatches(c: Conn, c': Conn, own: seq<Note>)
    requires Matches(c, own) && |own| % 3 == 0 && c.response.Some? && !c.isError && Clean(c')
    ensures Matches(c', own)
  {
  }

  /** A worker takes a job, or moves on without a note: its state may lose its mutex
      or, told everything, be reset. */
  lemma WorkerMovesOn(s: Server, at: Places, w: nat, s': Server)
    requires Inv(s, at) && DialoguesFit(s) && w < |s.workers|
    requires |s'.workers| == |s.workers| && s'.workers == s.workers[w := s'.workers[w]]
    requires s'.history == s.history
    requires WritePool in s'.queues && s'.conns.Keys == s.conns.Keys
    requires forall ref | ref in s.conns ::
               || s'.conns[ref].(token := s.conns[ref].token) == s.conns[ref]
               || (Clean(s'.conns[ref]) && |Own(s.history, ref)| % 3 == 0
                   && s.conns[ref].response.Some? && !s.conns[ref].isError)
    requires WorkerFits(s', w)
    requires forall k | 0 <= k < |s'.queues[WritePool]| :: EntryFits(s, s'.queues[WritePool][k])
    ensures DialoguesFit(s')
  {
    hide InTurn, Own, Fits, Inv;
    forall ref | ref in s'.conns
      ensures RefFits(s'.conns[ref], Own(s'.history, ref))
    {
      assert RefFits(s.conns[ref], Own(s.history, ref));
      if s'.conns[ref].(token := s.conns[ref].token) != s.conns[ref] {
        ResetMatches(s.conns[ref], s'.conns[ref], Own(s.history, ref));
      }
    }
    forall v | 0 <= v < |s'.workers|
      ensures WorkerFits(s', v)
    {
      assert v != w ==> s'.workers[v] == s.workers[v] && WorkerFits(s, v);
    }
    forall k | 0 <= k < |s'.queues[WritePool]|
      ensures EntryFits(s', s'.queues[WritePool][k])
    {
      assert EntryFits(s, s'.queues[WritePool][k]);
    }
  }

  /** A worker notes something about its own state. */
  lemma WorkerNotes(s: Server, at: Places, w: nat, note: Note, s': Server)
    requires Inv(s, at) && DialoguesFit(s) && w < |s.workers| && s.workers[w].task.Busy?
    requires note.ref == s.workers[w].task.ref && note.ref in s.conns
    requires s'.history == s.history + [note]
    requires |s'.workers| == |s.workers| && s'.workers == s.workers[w := s'.workers[w]]
    requires s'.queues == s.queues
    requires note.ref in s'.conns && s'.conns == s.conns[note.ref := s'.conns[note.ref]]
    requires var own := Own(s.history, note.ref) + [note];
             && Fits(own, |own| - 1) && Matches(s'.conns[note.ref], own)
             && (s'.workers[w].task.Busy? ==>
                  s'.workers[w].task.ref == note.ref && PcFits(s'.workers[w].task.pc, own))
    ensures DialoguesFit(s')
  {
    hide InTurn, Own, Fits, Inv, Matches, PcFits;
    forall ref | ref in s'.conns
      ensures RefFits(s'.conns[ref], Own(s'.history, ref))
    {
      OwnNote(s.history, note, ref);
      assert RefFits(s.conns[ref], Own(s.history, ref));
      if ref == note.ref {
        OneMore(Own(s.history, ref), note);
      } else {
        assert Own(s.history, ref) + [] == Own(s.history, ref);
      }
    }
    forall v | 0 <= v < |s'.workers|
      ensures WorkerFits(s', v)
    {
      if s'.workers[v].task.Busy? {
        OwnNote(s.history, note, s'.workers[v].task.ref);
      }
      if v != w && s.workers[v].task.Busy? {
        DifferentRefs(s, at, w, v);
        assert WorkerFits(s, v);
        assert Own(s.history, s.workers[v].task.ref) + [] == Own(s.history, s.workers[v].task.ref);
      }
    }
    forall k | 0 <= k < |s'.queues[WritePool]|
      ensures EntryFits(s', s'.queues[WritePool][k])
    {
      QueuedIsNotHeld(s, at, WritePool, k, w);
      OwnNote(s.history, note, s'.queues[WritePool][k]);
      assert EntryFits(s, s.queues[WritePool][k]);
    }
  }

  lemma TaskContents(s: Server, at: Places, w: nat)
    requires Inv(s, at) && w < |s.workers| && s.workers[w].task.Busy?
    ensures s.workers[w].task.ref in s.conns
    ensures BeforeErase(s.workers[w].task.pc) ==>
              ContentsAtPc(s.workers[w].task.pc, s.conns[s.workers[w].task.ref])
  {
    hide Inv, ContentsAtPc, SocketsOf;
    TaskFacts(s, at, w);
  }

  lemma ReadKeepsDialogues(s: Server, at: Places, w: nat, data: Bytes, healthy: bool)
    requires Inv(s, at) && DialoguesFit(s) && Enabled(s, Read(w, data, healthy))
    ensures DialoguesFit(Step(s, Read(w, data, healthy)))
  {
    hide Inv, Own, InTurn;
    TaskContents(s, at, w);
    var s' := Step(s, Read(w, data, healthy));
    var ref := s.workers[w].task.ref;
    assert RefFits(s.conns[ref], Own(s.history, ref));
    hide DialoguesFit;
    if s'.conns[ref].readData == [] {
      assert s'.conns[ref] == s.conns[ref];
      QuietMove(s, at, w, s');
    } else {
      WorkerNotes(s, at, w, Asked(ref, s'.conns[ref].readData), s');
    }
  }

  lemma QuietMove(s: Server, at: Places, w: nat, s': Server)
    requires Inv(s, at) && DialoguesFit(s) && w < |s.workers| && s.workers[w].task.Busy?
    requires s' == s.(workers := s'.workers) && |s'.workers| == |s.workers|
    requires s'.workers == s.workers[w := s'.workers[w]]
    requires WorkerFits(s', w)
    ensures DialoguesFit(s')
  {
    hide Inv, Own, WorkerFits;
    WorkerMovesOn(s, at, w, s');
  }

  lemma ExecuteKeepsDialogues(s: Server, at: Places, w: nat, reply: Reply)
    requires Inv(s, at) && DialoguesFit(s) && Enabled(s, Execute(w, reply))
    ensures DialoguesFit(Step(s, Execute(w, reply)))
  {
    hide Inv, Own, InTurn, Answers, ParsedCommand;
    TaskContents(s, at, w);
    var s' := Step(s, Execute(w, reply));
    var ref := s.workers[w].task.ref;
    assert RefFits(s.conns[ref], Own(s.history, ref));
    hide DialoguesFit;
    WorkerNotes(s, at, w, Answered(ref, s.conns[ref].readData, reply), s');
  }

  /** What is sent is what the dialogue has as its last note. */
  lemma SentIsTheAnswer(c: Conn, own: seq<Note>, ref: Ref)
    requires Matches(c, own) && HasAnswer(c) && |own| % 3 == 2
    ensures var told := Told(ref, WireBytes(c));
            Fits(own + [told], |own|) && Matches(c, own + [told])
  {
    hide Answers, Serialize, CString, ParsedCommand;
  }

  lemma WriteKeepsDialogues(s: Server, at: Places, w: nat, healthy: bool)
    requires Inv(s, at) && DialoguesFit(s) && Enabled(s, Write(w, healthy))
    ensures DialoguesFit(Step(s, Write(w, healthy)))
  {
    hide Inv, Own, InTurn, Answers, Matches, Fits, HasAnswer, WireBytes;
    TaskContents(s, at, w);
    var s' := Step(s, Write(w, healthy));
    var ref := s.workers[w].task.ref;
    assert RefFits(s.conns[ref], Own(s.history, ref)) && WorkerFits(s, w);
    hide DialoguesFit;
    if healthy {
      SentIsTheAnswer(s.conns[ref], Own(s.history, ref), ref);
      WorkerNotes(s, at, w, Told(ref, WireBytes(s.conns[ref])), s');
    } else {
      QuietMove(s, at, w, s');
    }
  }

  lemma StartJobKeepsDialogues(s: Server, at: Places, w: nat)
    requires Inv(s, at) && DialoguesFit(s) && Enabled(s, StartJob(w))
    ensures DialoguesFit(Step(s, StartJob(w)))
  {
    hide Inv, Own, InTurn, Matches;
    var s' := Step(s, StartJob(w));
    var p := s.workers[w].pool;
    assert p == WritePool ==> EntryFits(s, s.queues[p][0]);
    forall k | 0 <= k < |s'.queues[WritePool]|
      ensures EntryFits(s, s'.queues[WritePool][k])
    {
      assert p == WritePool ==> s'.queues[p][k] == s.queues[p][k + 1];
      assert EntryFits(s, s.queues[WritePool][if p == WritePool then k + 1 else k]);
    }
    WorkerMovesOn(s, at, w, s');
  }

  /** What a worker changes that moves on without a note. */
  lemma ContinueFrame(s: Server, w: nat)
    requires Enabled(s, Continue(w))
    ensures w < |s.workers| && s.workers[w].task.Busy? && WritePool in s.queues
    ensures var s' := Step(s, Continue(w));
            var task := s.workers[w].task;
            && WritePool in s'.queues && s'.history == s.history
            && |s'.workers| == |s.workers| && s'.workers == s.workers[w := s'.workers[w]]
            && (s'.workers[w].task.Busy? ==>
                 s'.workers[w].task.ref == task.ref
                 && s'.workers[w].task.pc !in {ParseDone, WriteStart, WriteDone})
            && s'.conns.Keys == s.conns.Keys
            && (forall ref | ref in s.conns ::
                 || s'.conns[ref].(token := s.conns[ref].token) == s.conns[ref]
                 || (task.pc == WriteDone && ref == task.ref && Clean(s'.conns[ref])))
            && s'.queues[WritePool]
               == s.queues[WritePool] + if task.pc == ParseDone then [task.ref] else []
  {
    var task := s.workers[w].task;
    assert s.queues[WritePool] + [] == s.queues[WritePool];
    if task.pc != WriteDone && task.pc != Unlocking {
      assert Step(s, Continue(w)).conns == s.conns;
    }
  }

  lemma ContinueKeepsDialogues(s: Server, at: Places, w: nat)
    requires Inv(s, at) && DialoguesFit(s) && Enabled(s, Continue(w))
    ensures DialoguesFit(Step(s, Continue(w)))
  {
    hide Inv, Own, RefFits, Step, Enabled;
    ContinueFrame(s, w);
    var s' := Step(s, Continue(w));
    var task := s.workers[w].task;
    assert WorkerFits(s, w);
    if task.pc == WriteDone {
      TaskContents(s, at, w);
    }
    forall k | 0 <= k < |s'.queues[WritePool]|
      ensures EntryFits(s, s'.queues[WritePool][k])
    {
      if k < |s.queues[WritePool]| {
        assert EntryFits(s, s.queues[WritePool][k]);
      }
    }
    hide DialoguesFit;
    WorkerMovesOn(s, at, w, s');
  }

  /** What the other steps change. */
  lemma QuietFrame(s: Server, a: Action)
    requires Enabled(s, a) && WritePool in s.queues
    requires !OfWorker(a) && !a.StartJob?
    ensures var s' := Step(s, a);
            && s'.history == s.history
            && WritePool in s'.queues && s'.queues[WritePool] == s.queues[WritePool]
  {
    hide ReadStep, ExecuteStep, WriteStep, ContinueStep, StartStep;
  }

  lemma QuietStates(s: Server, a: Action)
    requires Enabled(s, a) && !OfWorker(a) && !a.StartJob? && s.nextRef !in s.conns
    ensures var s' := Step(s, a);
            && (forall ref | ref in s.conns ::
                 ref in s'.conns && s'.conns[ref].(token := s.conns[ref].token) == s.conns[ref])
            && (forall ref | ref in s'.conns && ref !in s.conns :: Clean(s'.conns[ref]))
  {
    hide ReadStep, ExecuteStep, WriteStep, ContinueStep, StartStep;
    if a.EpollerNext? {
      hide AcceptorStep, ChooseStep;
    } else if a.AcceptorNext? {
      hide EpollerStep, ChooseStep;
    } else {
      hide EpollerStep, AcceptorStep;
      assert Step(s, a).conns == s.conns;
    }
  }

  lemma AllBelowNext(s: Server, at: Places)
    requires Inv(s, at)
    ensures WritePool in s.queues && s.nextRef !in s.conns
  {
    hide AcceptorPlaced, WaitingPlaced, EpollerPlaced, WorkersPlaced, MapPlaced, StatesInOrder,
      SocketsOf, KernelInStep, EntryPlaced;
  }

  lemma StepKeepsDialogues(s: Server, at: Places, a: Action)
    requires Inv(s, at) && DialoguesFit(s) && Enabled(s, a)
    ensures DialoguesFit(Step(s, a))
  {
    hide Inv, DialoguesFit, Enabled, Step;
    match a
    case StartJob(w) => StartJobKeepsDialogues(s, at, w);
    case Read(w, data, healthy) => ReadKeepsDialogues(s, at, w, data, healthy);
    case Execute(w, reply) => ExecuteKeepsDialogues(s, at, w, reply);
    case Write(w, healthy) => WriteKeepsDialogues(s, at, w, healthy);
    case Continue(w) => ContinueKeepsDialogues(s, at, w);
    case _ =>
      AllBelowNext(s, at);
      QuietFrame(s, a);
      QuietStates(s, a);
      OneWorkerMoves(s, a);
      QuietStep(s, Step(s, a));
  }

  lemma {:induction false} RunKeepsDialogues(s: Server, at: Places, actions: seq<Action>)
    returns (at': Places)
    requires Inv(s, at) && DialoguesFit(s) && IsRun(s, actions)
    ensures Inv(After(s, actions), at') && DialoguesFit(After(s, actions))
    decreases |actions|
  {
    hide Inv, DialoguesFit, Enabled, Step;
    at' := at;
    if actions != [] {
      StepKeepsDialogues(s, at, actions[0]);
      var next := StepKeepsInv(s, at, actions[0]);
      at' := RunKeepsDialogues(Step(s, actions[0]), next, actions[1..]);
    }
  }

  lemma StartDialogues(pools: seq<PoolName>)
    ensures DialoguesFit(Start(pools))
  {
  }

  // ---- the laws ----

  /** On every connection, over every interleaving, the notes take turns: each batch
      read gets one reply, recorded for that batch, and each reply is sent once, as it
      was recorded, before the next batch is read; only the last turn may be unfinished,
      and after a reply that closes the connection no batch is read.
      And a state holds what its dialogue says: nothing between turns, then the batch,
      then the reply to it. */
  lemma RequestsDoNotMix(pools: seq<PoolName>, actions: seq<Action>, ref: Ref)
    requires IsRun(Start(pools), actions)
    ensures var s := After(Start(pools), actions);
            && InTurn(Own(s.history, ref))
            && (ref in s.conns ==> Matches(s.conns[ref], Own(s.history, ref)))
  {
    hide IsRun, After, Inv, InTurn, Matches, Own;
    StartInv(pools);
    StartDialogues(pools);
    var at := RunKeepsDialogues(Start(pools), map[], actions);
    var s := After(Start(pools), actions);
    if ref in s.conns {
      assert RefFits(s.conns[ref], Own(s.history, ref));
    } else {
      NoNotes(s.history, ref);
      NothingIsInTurn();
    }
  }

  /** What taking turns says of any three notes, and of how many there are. */
  lemma TurnByTurn(own: seq<Note>, n: nat)
    requires InTurn(own) && 3 * n + 2 < |own|
    ensures own[3 * n].Asked? && own[3 * n + 1].Answered? && own[3 * n + 2].Told?
    ensures own[3 * n + 1].batch == own[3 * n].batch
    ensures Answers(own[3 * n].batch, own[3 * n + 1].reply)
    ensures own[3 * n + 2].bytes == CString(Serialize(own[3 * n + 1].reply.value))
    ensures own[3 * n + 1].reply.fatal ==> |own| == 3 * n + 3
  {
    hide Answers, Serialize, CString;
    assert Fits(own, 3 * n) && Fits(own, 3 * n + 1) && Fits(own, 3 * n + 2);
    if 3 * n + 3 < |own| {
      assert Fits(own, 3 * n + 3);
    }
  }

  /** The state has its answer, and it was not reset yet: its job is at the end of the
      parse job, in the queue for writing, or at the write. */
  ghost predicate CarriesAnswer(s: Server, ref: Ref) {
    && ref in s.conns && WritePool in s.queues
    && (|| ref in s.queues[WritePool]
        || exists w: nat :: HoldsAnswer(s, w, ref))
  }

  predicate HoldsAnswer(s: Server, w: nat, ref: Ref) {
    && w < |s.workers| && s.workers[w].task.Busy? && s.workers[w].task.ref == ref
    && s.workers[w].task.pc in {ParseDone, WriteStart, WriteDone}
  }

  lemma OtherHands(s: Server, at: Places, v: nat, ref: Ref)
    requires Inv(s, at) && CarriesAnswer(s, ref)
    requires v < |s.workers| && s.workers[v].task.Busy? && !HoldsAnswer(s, v, ref)
    ensures s.workers[v].task.ref != ref
  {
    hide Inv;
    if ref in s.queues[WritePool] {
      var k :| 0 <= k < |s.queues[WritePool]| && s.queues[WritePool][k] == ref;
      QueuedIsNotHeld(s, at, WritePool, k, v);
    } else {
      var w: nat :| HoldsAnswer(s, w, ref);
      DifferentRefs(s, at, w, v);
    }
  }

  lemma AnswerIsLocked(s: Server, ref: Ref)
    requires CarriesAnswer(s, ref) && TokensInOrder(s)
    ensures s.conns[ref].token
  {
    if ref in s.queues[WritePool] {
      var k :| 0 <= k < |s.queues[WritePool]| && s.queues[WritePool][k] == ref;
      assert s.conns[s.queues[WritePool][k]].token;
    } else {
      var w: nat :| HoldsAnswer(s, w, ref);
      assert TaskTokenInOrder(s, s.workers[w].task);
    }
  }

  lemma AnswerStays(s: Server, at: Places, a: Action, ref: Ref)
    requires Inv(s, at) && CarriesAnswer(s, ref) && Enabled(s, a) && s.conns[ref].token
    ensures var s' := Step(s, a);
            && ref in s'.conns
            && (s'.conns[ref] != s.conns[ref] ==>
                 a.Continue? && HoldsAnswer(s, a.w, ref) && s.workers[a.w].task.pc == WriteDone)
  {
    hide Inv, CarriesAnswer, Step;
    HasState(s, ref);
    AllBelowNext(s, at);
    OneStateMoves(s, a);
    if OfWorker(a) {
      if HoldsAnswer(s, a.w, ref) {
        hide Enabled;
        HolderLeavesItAlone(s, a, ref);
      } else {
        OneWorkerMoves(s, a);
        OtherHands(s, at, a.w, ref);
      }
    }
  }

  lemma HolderLeavesItAlone(s: Server, a: Action, ref: Ref)
    requires Enabled(s, a) && OfWorker(a) && HoldsAnswer(s, a.w, ref) && ref in s.conns
    ensures ref in Step(s, a).conns
    ensures Step(s, a).conns[ref] != s.conns[ref] ==> a.Continue? && s.workers[a.w].task.pc == WriteDone
  {
    hide Answers, Record, ParsedCommand, WireBytes, ResetConn;
  }

  lemma HasState(s: Server, ref: Ref)
    requires CarriesAnswer(s, ref)
    ensures ref in s.conns && WritePool in s.queues
  {
  }

  /** The two steps that part a state from its answer: the write that fails or that
      closes, and the reset. */
  predicate LetsGo(s: Server, a: Action, ref: Ref) {
    (a.Write? || a.Continue?) && HoldsAnswer(s, a.w, ref)
    && s.workers[a.w].task.pc in {WriteStart, WriteDone}
  }

  lemma QueuedIsCarriedOn(s: Server, a: Action, ref: Ref)
    requires WritePool in s.queues && ref in s.queues[WritePool] && ref in s.conns
    requires Enabled(s, a) && ref in Step(s, a).conns
    ensures CarriesAnswer(Step(s, a), ref)
  {
    var k :| 0 <= k < |s.queues[WritePool]| && s.queues[WritePool][k] == ref;
    if a.StartJob? && s.workers[a.w].pool == WritePool {
      QueuedIsTaken(s, a.w, k);
    } else {
      QueueGrows(s, a);
      hide Step, Enabled;
      assert Step(s, a).queues[WritePool][k] == ref;
    }
  }

  lemma QueuedIsTaken(s: Server, w: nat, k: nat)
    requires Enabled(s, StartJob(w)) && s.workers[w].pool == WritePool && k < |s.queues[WritePool]|
    requires s.queues[WritePool][k] in s.conns
    ensures CarriesAnswer(Step(s, StartJob(w)), s.queues[WritePool][k])
  {
    var s', ref := Step(s, StartJob(w)), s.queues[WritePool][k];
    if k == 0 {
      assert HoldsAnswer(s', w, ref);
    } else {
      assert s'.queues[WritePool][k - 1] == ref;
    }
  }

  lemma QueueGrows(s: Server, a: Action)
    requires Enabled(s, a) && WritePool in s.queues && !(a.StartJob? && s.workers[a.w].pool == WritePool)
    ensures WritePool in Step(s, a).queues && s.queues[WritePool] <= Step(s, a).queues[WritePool]
  {
    hide Answers, Record, ParsedCommand, WireBytes, ResetConn;
  }

  lemma HeldIsCarriedOn(s: Server, a: Action, w: nat, ref: Ref)
    requires WritePool in s.queues && HoldsAnswer(s, w, ref) && !LetsGo(s, a, ref)
    requires Enabled(s, a) && ref in Step(s, a).conns
    ensures CarriesAnswer(Step(s, a), ref)
  {
    if (OfWorker(a) || a.StartJob?) && a.w == w {
      HolderGoesOn(s, a, w, ref);
    } else {
      hide Step, Enabled;
      OneWorkerMoves(s, a);
      QueuesStay(s, a);
      assert HoldsAnswer(Step(s, a), w, ref);
    }
  }

  lemma QueuesStay(s: Server, a: Action)
    requires Enabled(s, a) && WritePool in s.queues
    ensures WritePool in Step(s, a).queues
  {
    hide Answers, Record, ParsedCommand, WireBytes, ResetConn;
  }

  /** The only step of the holder that keeps the answer carried hands it on. */
  lemma HolderGoesOn(s: Server, a: Action, w: nat, ref: Ref)
    requires WritePool in s.queues && HoldsAnswer(s, w, ref) && !LetsGo(s, a, ref)
    requires (OfWorker(a) || a.StartJob?) && a.w == w
    requires Enabled(s, a) && ref in Step(s, a).conns
    ensures CarriesAnswer(Step(s, a), ref)
  {
    hide ReadStep, ExecuteStep, WriteStep, StartStep;
    assert a == Continue(w) && s.workers[w].task.pc == ParseDone;
    assert Step(s, a).queues[WritePool][|s.queues[WritePool]|] == ref;
  }

  /** From the recording of an answer to the reset, or to the close, no step of
      anybody changes it: the first that does is the reset by the job that wrote it. */
  lemma AnswerIsUndisturbed(pools: seq<PoolName>, actions: seq<Action>, a: Action, ref: Ref)
    requires IsRun(Start(pools), actions) && Enabled(After(Start(pools), actions), a)
    requires CarriesAnswer(After(Start(pools), actions), ref)
    ensures var s := After(Start(pools), actions);
            var s' := Step(s, a);
            && ref in s'.conns
            && (s'.conns[ref] != s.conns[ref] ==>
                 a.Continue? && HoldsAnswer(s, a.w, ref) && s.workers[a.w].task.pc == WriteDone)
            && (!CarriesAnswer(s', ref) ==> LetsGo(s, a, ref))
  {
    hide IsRun, After, Inv, Enabled, Step, TokensInOrder, HoldsAnswer, LetsGo;
    MutexIsAHandOffToken(pools, actions);
    var at := InvOfRun(pools, actions);
    var s := After(Start(pools), actions);
    AnswerIsLocked(s, ref);
    AnswerStays(s, at, a, ref);
    if !LetsGo(s, a, ref) {
      if ref in s.queues[WritePool] {
        QueuedIsCarriedOn(s, a, ref);
      } else {
        var w: nat :| HoldsAnswer(s, w, ref);
        HeldIsCarriedOn(s, a, w, ref);
      }
    }
  }
}

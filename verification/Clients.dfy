/** Commands of many clients at once. A GET or a SET is one critical section of
    one data store; a DEL is one critical section for each of its arguments, and
    those of different clients interleave in any way. */
module Clients {
  import opened ByteStrings
  import opened RespObject
  import opened Commands
  import opened Refinement
  import RespSyntax
  import RespLaws

  /** A client's command, and the length that the log had when it began. */
  datatype Client =
    | Idle
    | Deleting(command: Object, next: nat, count: nat, since: nat)
    | Done(command: Object, reply: Reply, since: nat)

  /** What one critical section of client `c` did, with the result it saw. */
  datatype Event =
    | DidSet(c: nat, key: Bytes, value: Object)
    | DidGet(c: nat, key: Bytes, reply: Reply)
    | DidDel(c: nat, key: Bytes, deleted: bool)

  /** `log` lists the critical sections in the order of the locks; `replied` is
      the sum of the counts that finished DELs have answered. */
  datatype State = State(tables: Tables, clients: seq<Client>, log: seq<Event>, replied: nat)

  datatype Action =
    | Begin(c: nat, command: Object)  // all of a GET or SET; the start of a DEL
    | DelOne(c: nat)
    | DelEnd(c: nat)
    | TakeReply(c: nat)

  predicate Enabled(s: State, a: Action) {
    && a.c < |s.clients|
    && match a
       case Begin(c, command) =>
         s.clients[c].Idle? && Canonical(command) && AllIndexable(KeysOf(command))
       case DelOne(c) =>
         && s.clients[c].Deleting? && s.clients[c].next < |KeysOf(s.clients[c].command)|
         && Indexable(KeysOf(s.clients[c].command)[s.clients[c].next])
       case DelEnd(c) =>
         s.clients[c].Deleting? && s.clients[c].next == |KeysOf(s.clients[c].command)|
       case TakeReply(c) => s.clients[c].Done?
  }

  function Step(s: State, a: Action): State
    requires Enabled(s, a)
  {
    match a
    case Begin(c, command) =>
      (match Classify(command)
       case InvalidCommand =>
         s.(clients := s.clients[c := Done(command, Reply(false, INVALID_COMMAND), |s.log|)])
       case GetCommand =>
         var name := KeysOf(command)[0];
         var reply := ExecuteGet(s.tables, name);
         s.(clients := s.clients[c := Done(command, reply, |s.log|)],
            log := s.log + [DidGet(c, name, reply)])
       case SetCommand =>
         var name, value := KeysOf(command)[0], command.items[2];
         var (tables, reply) := ExecuteSet(s.tables, name, value);
         s.(tables := tables, clients := s.clients[c := Done(command, reply, |s.log|)],
            log := s.log + [DidSet(c, name, value)])
       case DelCommand =>
         s.(clients := s.clients[c := Deleting(command, 0, 0, |s.log|)]))
    case DelOne(c) =>
      var Deleting(command, next, count, since) := s.clients[c];
      var name := KeysOf(command)[next];
      var (tables, deleted) := StoreDel(s.tables, name);
      var count' := if deleted then count + 1 else count;
      s.(tables := tables,
         clients := s.clients[c := Deleting(command, next + 1, count', since)],
         log := s.log + [DidDel(c, name, deleted)])
    case DelEnd(c) =>
      var Deleting(command, _, count, since) := s.clients[c];
      s.(clients := s.clients[c := Done(command, Reply(false, Integer(count)), since)],
         replied := s.replied + count)
    case TakeReply(c) => s.(clients := s.clients[c := Idle])
  }

  predicate IsRun(s: State, actions: seq<Action>)
    decreases |actions|
  {
    actions != [] ==> Enabled(s, actions[0]) && IsRun(Step(s, actions[0]), actions[1..])
  }

  function After(s: State, actions: seq<Action>): State
    requires IsRun(s, actions)
    decreases |actions|
  {
    if actions == [] then s else After(Step(s, actions[0]), actions[1..])
  }

  function Start(clients: nat): State {
    State(EMPTY_TABLES, seq(clients, i => Idle), [], 0)
  }

  // ---- the sequential explanation ----

  function MapEvent(m: Contents, e: Event): Contents {
    match e
    case DidSet(_, key, value) => m[key := value]
    case DidGet(_, _, _) => m
    case DidDel(_, key, _) => m - {key}
  }

  /** The client saw what the map shows. */
  predicate SawTruly(m: Contents, e: Event) {
    match e
    case DidSet(_, _, _) => true
    case DidGet(_, key, reply) =>
      reply == if key in m then Reply(true, m[key]) else Reply(false, NULL_BULK)
    case DidDel(_, key, deleted) => deleted <==> key in m
  }

  /** The contents of one map that goes through the log from front to back. */
  function Replay(log: seq<Event>): Contents {
    if log == [] then map[] else MapEvent(Replay(log[..|log| - 1]), log[|log| - 1])
  }

  /** Every client saw what that one map would have shown it at that moment. */
  predicate Explained(log: seq<Event>) {
    log != [] ==>
      Explained(log[..|log| - 1]) && SawTruly(Replay(log[..|log| - 1]), log[|log| - 1])
  }

  /** How many SETs in the log found their key absent. */
  function Creations(log: seq<Event>): nat {
    if log == [] then 0 else
      var last := log[|log| - 1];
      var n := Creations(log[..|log| - 1]);
      if last.DidSet? && last.key !in Replay(log[..|log| - 1]) then n + 1 else n
  }

  function CountOf(client: Client): nat {
    if client.Deleting? then client.count else 0
  }

  /** What the DELs under way have counted so far. */
  function InProgress(clients: seq<Client>): nat {
    if clients == [] then 0 else
      InProgress(clients[1..]) + CountOf(clients[0])
  }

  /** A DEL under way has counted no more than it has done, and a reply is one that
      the command may have. */
  predicate WellFormed(client: Client) {
    match client
    case Idle => true
    case Deleting(command, next, count, _) =>
      && Classify(command) == DelCommand
      && AllIndexable(KeysOf(command)) && AllNulFree(KeysOf(command))
      && count <= next <= |KeysOf(command)|
    case Done(command, reply, _) => PossibleReply(command, reply)
  }

  // ---- what a client's own critical sections say ----

  function Own(log: seq<Event>, c: nat): seq<Event> {
    if log == [] then [] else
      var last := log[|log| - 1];
      Own(log[..|log| - 1], c) + if last.c == c then [last] else []
  }

  /** These events are deletions of these names, in order, `count` of which found
      their key. */
  predicate AreDels(own: seq<Event>, names: seq<Bytes>, count: int)
    decreases |names|
  {
    if names == [] then own == [] && count == 0 else
      && own != []
      && var last := own[|own| - 1];
         && last.DidDel? && last.key == names[|names| - 1]
         && AreDels(own[..|own| - 1], names[..|names| - 1], if last.deleted then count - 1 else count)
  }

  lemma {:induction false} DelsAreCounted(own: seq<Event>, names: seq<Bytes>, count: int)
    requires AreDels(own, names, count)
    ensures 0 <= count <= |names|
    decreases |names|
  {
    if names != [] {
      var deleted := own[|own| - 1].deleted;
      DelsAreCounted(own[..|own| - 1], names[..|names| - 1], if deleted then count - 1 else count);
    }
  }

  /** The reply to a command is what these events, and nothing else, add up to. */
  predicate AddsUp(command: Object, reply: Reply, own: seq<Event>) {
    match Classify(command)
    case InvalidCommand => own == [] && reply == Reply(false, INVALID_COMMAND)
    case GetCommand =>
      |own| == 1 && own[0].DidGet? && own[0].key == KeysOf(command)[0] && own[0].reply == reply
    case SetCommand =>
      |own| == 1 && own[0].DidSet? && own[0].key == KeysOf(command)[0]
      && own[0].value == command.items[2] && reply == Reply(false, STORED)
    case DelCommand =>
      !reply.fatal && reply.value.Integer? && AreDels(own, KeysOf(command), reply.value.number)
  }

  /** What a client's own critical sections since the start of its command say: they
      are those of its command, and add up to its count or its reply. */
  predicate Accounts(client: Client, own: seq<Event>) {
    match client
    case Idle => true
    case Deleting(command, next, count, _) =>
      && Classify(command) == DelCommand
      && next <= |KeysOf(command)| && AreDels(own, KeysOf(command)[..next], count)
    case Done(command, reply, _) => AddsUp(command, reply, own)
  }

  predicate AccountedAt(s: State, c: nat)
    requires c < |s.clients|
  {
    !s.clients[c].Idle? ==>
      s.clients[c].since <= |s.log| && Accounts(s.clients[c], Own(s.log[s.clients[c].since..], c))
  }

  predicate Accounted(s: State) {
    forall c | 0 <= c < |s.clients| :: AccountedAt(s, c)
  }

  lemma OwnEvents(log: seq<Event>, since: nat, e: Event, c: nat)
    requires since <= |log|
    ensures Own((log + [e])[since..], c) == Own(log[since..], c) + if e.c == c then [e] else []
  {
    assert (log + [e])[since..] == log[since..] + [e];
    Logged(log[since..], e);
  }

  lemma OneMoreDel(own: seq<Event>, names: seq<Bytes>, count: int, e: Event)
    requires names != [] && AreDels(own, names[..|names| - 1], count)
    requires e.DidDel? && e.key == names[|names| - 1]
    ensures AreDels(own + [e], names, if e.deleted then count + 1 else count)
  {
    assert (own + [e])[..|own + [e]| - 1] == own;
  }

  /** A step changes one client, and logs at most one event, of that client. */
  lemma StepFrame(s: State, a: Action)
    requires Enabled(s, a)
    ensures var s' := Step(s, a);
            && a.c < |s.clients| == |s'.clients|
            && (forall c | 0 <= c < |s.clients| && c != a.c :: s'.clients[c] == s.clients[c])
            && |s.log| <= |s'.log| <= |s.log| + 1
            && (|s'.log| == |s.log| ==> s'.log == s.log)
            && (|s'.log| > |s.log| ==> s'.log == s.log + [s'.log[|s.log|]] && s'.log[|s.log|].c == a.c)
            && (a.Begin? == s.clients[a.c].Idle?)
            && (!s'.clients[a.c].Idle? ==>
                 s'.clients[a.c].since == if a.Begin? then |s.log| else s.clients[a.c].since)
  {
    hide KeysOf, Classify, Canonical, Indexable, StoreDel, ExecuteGet, StoreSet;
  }

  lemma AccountsOfActor(s: State, a: Action, own: seq<Event>)
    requires Enabled(s, a) && if a.Begin? then own == [] else Accounts(s.clients[a.c], own)
    ensures var s' := Step(s, a);
            Accounts(s'.clients[a.c], if s'.log == s.log then own else own + [s'.log[|s'.log| - 1]])
  {
    hide KeysOf, Classify, Canonical, Indexable, StoreDel, ExecuteGet, StoreSet, AreDels;
    match a
    case Begin(c, command) =>
      NoDels(KeysOf(command));
    case DelOne(c) =>
      var Deleting(command, next, count, _) := s.clients[c];
      var names := KeysOf(command)[..next + 1];
      assert names[..next] == KeysOf(command)[..next];
      OneMoreDel(own, names, count, Step(s, a).log[|s.log|]);
    case DelEnd(c) =>
      var Deleting(command, next, _, _) := s.clients[c];
      assert KeysOf(command)[..next] == KeysOf(command);
    case TakeReply(c) =>
  }

  lemma NoDels(names: seq<Bytes>)
    ensures AreDels([], names[..0], 0)
  {
  }

  lemma StepKeepsAccounts(s: State, a: Action)
    requires Accounted(s) && Enabled(s, a)
    ensures Accounted(Step(s, a))
  {
    hide Accounts, Own, Step, Enabled;
    var s' := Step(s, a);
    StepFrame(s, a);
    var since := if a.Begin? then |s.log| else s.clients[a.c].since;
    assert AccountedAt(s, a.c);
    assert s.log[|s.log|..] == [];
    assert Own([], a.c) == [] by { NothingOwn(a.c); }
    AccountsOfActor(s, a, Own(s.log[since..], a.c));
    forall c | 0 <= c < |s'.clients|
      ensures AccountedAt(s', c)
    {
      assert AccountedAt(s, c);
      if s'.log != s.log && !s'.clients[c].Idle? {
        OwnEvents(s.log, s'.clients[c].since, s'.log[|s.log|], c);
        assert Own(s.log[s'.clients[c].since..], c) + [] == Own(s.log[s'.clients[c].since..], c);
      }
    }
  }

  lemma NothingOwn(c: nat)
    ensures Own([], c) == []
  {
  }

  ghost predicate Inv(s: State) {
    && Partitioned(s.tables)
    && Abs(s.tables) == Replay(s.log)
    && Explained(s.log)
    && Accounted(s)
    && (forall c | 0 <= c < |s.clients| :: WellFormed(s.clients[c]))
    && |Abs(s.tables)| + s.replied + InProgress(s.clients) == Creations(s.log)
  }

  lemma {:induction false} InProgressUpdate(clients: seq<Client>, c: nat, client: Client)
    requires c < |clients|
    ensures InProgress(clients[c := client]) + CountOf(clients[c])
         == InProgress(clients) + CountOf(client)
  {
    if c > 0 {
      InProgressUpdate(clients[1..], c - 1, client);
      assert clients[c := client][1..] == clients[1..][c - 1 := client];
    } else {
      assert clients[0 := client][1..] == clients[1..];
    }
  }

  lemma {:induction false} NothingInProgress(n: nat)
    ensures InProgress(seq(n, i => Idle)) == 0
  {
    if n > 0 {
      NothingInProgress(n - 1);
      assert seq(n, i => Idle)[1..] == seq(n - 1, i => Idle);
    }
  }

  lemma Logged(log: seq<Event>, e: Event)
    ensures (log + [e])[..|log + [e]| - 1] == log
  {
  }

  /** What one more event does to the replayed map, the explanation and the count. */
  lemma ReplayOneMore(log: seq<Event>, e: Event)
    ensures Replay(log + [e]) == MapEvent(Replay(log), e)
    ensures Explained(log + [e]) <==> Explained(log) && SawTruly(Replay(log), e)
    ensures Creations(log + [e])
         == Creations(log) + if e.DidSet? && e.key !in Replay(log) then 1 else 0
  {
    Logged(log, e);
  }

  lemma BeginKeepsInv(s: State, c: nat, command: Object)
    requires Inv(s) && Enabled(s, Begin(c, command))
    ensures Inv(Step(s, Begin(c, command)))
  {
    hide Inv, Step;
    match Classify(command)
    case GetCommand => BeginGetKeepsInv(s, c, command);
    case SetCommand => BeginSetKeepsInv(s, c, command);
    case _ => BeginOtherKeepsInv(s, c, command);
  }

  lemma BeginGetKeepsInv(s: State, c: nat, command: Object)
    requires Inv(s) && Enabled(s, Begin(c, command)) && Classify(command) == GetCommand
    ensures Inv(Step(s, Begin(c, command)))
  {
    hide Partitioned, Abs, ToText, ExecuteGet, Indexable, NulFree, Accounted, Replay, Explained,
      Creations, InProgress, Canonical;
    KeysAreNulFree(command);
    var name := KeysOf(command)[0];
    InProgressUpdate(s.clients, c, Step(s, Begin(c, command)).clients[c]);
    StepKeepsAccounts(s, Begin(c, command));
    ReplayOneMore(s.log, DidGet(c, name, ExecuteGet(s.tables, name)));
    ExecuteGetRefines(s.tables, name);
    GetReplyIsPossible(s.tables, name);
  }

  lemma BeginSetKeepsInv(s: State, c: nat, command: Object)
    requires Inv(s) && Enabled(s, Begin(c, command)) && Classify(command) == SetCommand
    ensures Inv(Step(s, Begin(c, command)))
  {
    hide Partitioned, Abs, ToText, Serialize, StoreSet, Indexable, NulFree, Accounted, Replay,
      Explained, Creations, InProgress;
    KeysAreNulFree(command);
    var name, value := KeysOf(command)[0], command.items[2];
    InProgressUpdate(s.clients, c, Step(s, Begin(c, command)).clients[c]);
    StepKeepsAccounts(s, Begin(c, command));
    ReplayOneMore(s.log, DidSet(c, name, value));
    assert AllCanonical(command.items);
    hide Canonical;
    StoreSetRefines(s.tables, name, value);
    AddOne(Abs(s.tables), name, value);
  }

  /** A DEL only begins, and a command that is refused does nothing. */
  lemma BeginOtherKeepsInv(s: State, c: nat, command: Object)
    requires Inv(s) && Enabled(s, Begin(c, command))
    requires Classify(command) == DelCommand || Classify(command) == InvalidCommand
    ensures Inv(Step(s, Begin(c, command)))
  {
    hide Partitioned, Abs, ToText, Indexable, NulFree, Accounted, Replay, Explained, Creations,
      InProgress, Classify, KeysOf, Canonical;
    KeysAreNulFree(command);
    InProgressUpdate(s.clients, c, Step(s, Begin(c, command)).clients[c]);
    StepKeepsAccounts(s, Begin(c, command));
  }

  lemma AddOne(m: Contents, key: Bytes, value: Object)
    ensures |m[key := value]| == |m| + (if key in m then 0 else 1)
  {
    assert m[key := value].Keys == m.Keys + {key};
  }

  lemma DelOneKeepsInv(s: State, c: nat)
    requires Inv(s) && Enabled(s, DelOne(c))
    ensures Inv(Step(s, DelOne(c)))
  {
    hide Partitioned, Abs, StoreDel, Indexable, NulFree, KeysOf, PossibleReply, Accounted, Replay,
      Explained, Creations, InProgress;
    var Deleting(command, next, count, _) := s.clients[c];
    assert WellFormed(s.clients[c]);
    var name := KeysOf(command)[next];
    StoreDelRefines(s.tables, name);
    ReplayOneMore(s.log, DidDel(c, name, StoreDel(s.tables, name).1));
    InProgressUpdate(s.clients, c, Step(s, DelOne(c)).clients[c]);
    StepKeepsAccounts(s, DelOne(c));
  }

  lemma StepKeepsInv(s: State, a: Action)
    requires Inv(s) && Enabled(s, a)
    ensures Inv(Step(s, a))
  {
    hide Partitioned, Abs, KeysOf, Classify, Accounted, Replay, Explained, Creations, InProgress;
    StepKeepsAccounts(s, a);
    match a
    case Begin(c, command) => BeginKeepsInv(s, c, command);
    case DelOne(c) => DelOneKeepsInv(s, c);
    case DelEnd(c) =>
      assert WellFormed(s.clients[c]);
      InProgressUpdate(s.clients, c, Step(s, a).clients[c]);
    case TakeReply(c) => InProgressUpdate(s.clients, c, Idle);
  }

  lemma {:induction false} RunKeepsInv(s: State, actions: seq<Action>)
    requires Inv(s) && IsRun(s, actions)
    ensures Inv(After(s, actions))
    decreases |actions|
  {
    if actions != [] {
      hide Inv, Enabled, Step;
      StepKeepsInv(s, actions[0]);
      RunKeepsInv(Step(s, actions[0]), actions[1..]);
    }
  }

  lemma StartInv(clients: nat)
    ensures Inv(Start(clients))
  {
    hide Partitioned, Abs;
    EmptyTables();
    NothingInProgress(clients);
  }

  /** At every moment of every interleaving: the tables hold what one map holds
      after the critical sections in lock order; every result a client saw is the
      one that map explains; every reply, and every count of a DEL under way, is what
      that client's own critical sections since the start of its command add up to; and the live keys are the keys
      created less the keys counted by finished DELs and by those under way. */
  lemma EveryInterleavingIsSequential(clients: nat, actions: seq<Action>)
    requires IsRun(Start(clients), actions)
    ensures var s := After(Start(clients), actions);
            && Partitioned(s.tables)
            && Abs(s.tables) == Replay(s.log)
            && Explained(s.log)
            && Accounted(s)
            && |Abs(s.tables)| == Creations(s.log) - s.replied - InProgress(s.clients)
            && forall c | 0 <= c < |s.clients| && s.clients[c].Done? ::
                 PossibleReply(s.clients[c].command, s.clients[c].reply)
  {
    StartInv(clients);
    RunKeepsInv(Start(clients), actions);
    assert forall c | 0 <= c < |After(Start(clients), actions).clients| ::
        WellFormed(After(Start(clients), actions).clients[c]);
  }

  // ---- a command without interruption ----

  /** The steps a client takes for one command when nobody comes in between. */
  function StepsOf(c: nat, command: Object): seq<Action> {
    if Classify(command) == DelCommand then
      [Begin(c, command)] + seq(|KeysOf(command)|, i => DelOne(c)) + [DelEnd(c)]
    else [Begin(c, command)]
  }

  lemma {:induction false} DelSteps(s: State, c: nat, command: Object, done: nat, t: Tables)
    requires c < |s.clients| && done <= |KeysOf(command)| && AllIndexable(KeysOf(command))
    requires s.clients[c].Deleting?
    requires s.clients[c] == Deleting(command, done, StoreDelAll(t, KeysOf(command)[..done]).1, s.clients[c].since)
    requires s.tables == StoreDelAll(t, KeysOf(command)[..done]).0
    ensures var names := KeysOf(command);
            var rest := seq(|names| - done, i => DelOne(c)) + [DelEnd(c)];
            var (t', count) := StoreDelAll(t, names);
            && IsRun(s, rest)
            && After(s, rest).tables == t'
            && After(s, rest).clients == s.clients[c := Done(command, Reply(false, Integer(count)), s.clients[c].since)]
    decreases |KeysOf(command)| - done
  {
    hide StoreDel, Indexable, KeysOf;
    var names := KeysOf(command);
    var rest := seq(|names| - done, i => DelOne(c)) + [DelEnd(c)];
    if done == |names| {
      assert names[..done] == names && rest == [DelEnd(c)];
      assert IsRun(Step(s, DelEnd(c)), []);
    } else {
      assert names[..done + 1][..done] == names[..done];
      var s' := Step(s, DelOne(c));
      assert rest[1..] == seq(|names| - (done + 1), i => DelOne(c)) + [DelEnd(c)];
      DelSteps(s', c, command, done + 1, t);
    }
  }

  /** Run without interruption, the steps of a command change the tables and answer
      exactly as the executor does for the whole command. */
  lemma UninterruptedIsExecute(s: State, c: nat, command: Object)
    requires Enabled(s, Begin(c, command))
    ensures IsRun(s, StepsOf(c, command))
    ensures var s' := After(s, StepsOf(c, command));
            var (t', reply) := Execute(s.tables, command);
            s'.tables == t' && s'.clients == s.clients[c := Done(command, reply, |s.log|)]
  {
    hide Canonical, ToText, Indexable, KeysOf;
    var first := Begin(c, command);
    var steps := StepsOf(c, command);
    assert steps[0] == first;
    if Classify(command) == DelCommand {
      var names := KeysOf(command);
      assert StoreDelAll(s.tables, []) == (s.tables, 0);
      assert names[..0] == [];
      DelSteps(Step(s, first), c, command, 0, s.tables);
      assert steps[1..] == seq(|names| - 0, i => DelOne(c)) + [DelEnd(c)];
    } else {
      assert steps[1..] == [];
      assert IsRun(Step(s, first), []);
    }
  }
}

/** The ten tables of strings behave as one map from keys to RESP values. */
module Refinement {
  import opened ByteStrings
  import opened RespObject
  import opened Commands
  import RespSyntax
  import RespLaws

  /** What a client sees: one map from keys to values. */
  type Contents = map<Bytes, Object>

  // ---- the reference: one map, and commands as plain map operations ----

  function MapExecute(m: Contents, command: Object): (Contents, Reply) {
    match Classify(command)
    case InvalidCommand => (m, Reply(false, INVALID_COMMAND))
    case GetCommand =>
      var key := ToText(command.items[1]);
      (m, if key in m then Reply(true, m[key]) else Reply(false, NULL_BULK))
    case SetCommand =>
      (m[ToText(command.items[1]) := command.items[2]], Reply(false, STORED))
    case DelCommand =>
      var doomed := set i | 1 <= i < |command.items| :: ToText(command.items[i]);
      (m - doomed, Reply(false, Integer(|m.Keys * doomed|)))
  }

  function MapHandle(m: Contents, request: Bytes): (Contents, Reply) {
    var parsed := RespSyntax.GetObject(request);
    if parsed.err != RespSyntax.SUCCESS then (m, ParseErrorReply(request))
    else MapExecute(m, parsed.value.value)
  }

  // ---- the relation between the two ----

  /** A string that is exactly the printed form of a value. */
  predicate Stored(text: Bytes) {
    var parsed := RespSyntax.GetObject(text);
    && parsed.err == RespSyntax.SUCCESS
    && parsed.used == |text|
    && Serialize(parsed.value.value) == text
  }

  function Decode(text: Bytes): Object
    requires Stored(text)
  {
    RespSyntax.GetObject(text).value.value
  }

  /** An entry in the table its key selects: a NUL-free key, a printed value. */
  predicate WellPlaced(p: nat, key: Bytes, text: Bytes) {
    Indexable(key) && TableOf(key) == p && NulFree(key) && Stored(text)
  }

  predicate Partitioned(t: Tables) {
    forall p, key | 0 <= p < NUM_DATASTORES && key in t[p] :: WellPlaced(p, key, t[p][key])
  }

  function Keys(t: Tables): set<Bytes> {
    set p, key | 0 <= p < NUM_DATASTORES && key in t[p] :: key
  }

  /** The string found for a key in the table the key selects. */
  function Lookup(t: Tables, key: Bytes): Option<Bytes> {
    if Indexable(key) && key in t[TableOf(key)] then Some(t[TableOf(key)][key]) else None
  }

  lemma KeysAreFound(t: Tables, key: Bytes)
    requires Partitioned(t)
    ensures key in Keys(t) <==> Lookup(t, key).Some?
    ensures key in Keys(t) ==> Stored(Lookup(t, key).value)
  {
    hide Stored, Indexable;
    if key in Keys(t) {
      var p :| 0 <= p < NUM_DATASTORES && key in t[p];
      assert WellPlaced(p, key, t[p][key]);
    }
  }

  /** Of the ten tables, a stored key is in the one that its first byte picks, and in no
      other; and there is a key for each of the ten. */
  lemma KeysAreWhereTheirFirstByteSays(t: Tables, key: Bytes, q: nat)
    requires Partitioned(t) && key in Keys(t) && q < 10
    ensures |t| == 10
    ensures key in t[q] <==> q == if key == [] || key[0] >= 128 then 0 else key[0] % 10
    ensures Indexable([50 + q]) && TableOf([50 + q]) == q
  {
    hide Stored;
    PartitionByFirstByte(key);
    PartitionByFirstByte([50 + q]);
    var p :| 0 <= p < NUM_DATASTORES && key in t[p];
    assert WellPlaced(p, key, t[p][key]);
    if key in t[q] {
      assert WellPlaced(q, key, t[q][key]);
    }
  }

  ghost function Abs(t: Tables): Contents
    requires Partitioned(t)
  {
    map key | key in Keys(t) :: KeysAreFound(t, key); Decode(Lookup(t, key).value)
  }

  lemma AbsAt(t: Tables, key: Bytes)
    requires Partitioned(t)
    ensures key in Abs(t) <==> Lookup(t, key).Some?
    ensures key in Abs(t) ==>
              Stored(Lookup(t, key).value) && Abs(t)[key] == Decode(Lookup(t, key).value)
  {
    hide Lookup, Decode, Stored, Partitioned;
    KeysAreFound(t, key);
  }

  lemma StoredPrintedValue(v: Object)
    requires Canonical(v)
    ensures Stored(Serialize(v)) && Decode(Serialize(v)) == v
    ensures CString(Serialize(v)) == Serialize(v)
  {
    RespLaws.RoundTrip(v, []);
    assert Serialize(v) + [] == Serialize(v);
    SerializeIsNulFree(v);
  }

  lemma EmptyTables()
    ensures Partitioned(EMPTY_TABLES) && Abs(EMPTY_TABLES) == map[]
  {
  }

  // ---- single keys ----

  predicate TablePlaced(p: nat, table: map<Bytes, Bytes>) {
    forall key | key in table :: WellPlaced(p, key, table[key])
  }

  lemma ReplaceTable(t: Tables, p: nat, table: map<Bytes, Bytes>)
    requires Partitioned(t) && p < NUM_DATASTORES && TablePlaced(p, table)
    ensures Partitioned(t[p := table])
  {
    hide WellPlaced;
    var t' := t[p := table];
    forall q, key | 0 <= q < NUM_DATASTORES && key in t'[q]
      ensures WellPlaced(q, key, t'[q][key])
    {
      assert q != p ==> key in t[q] && t'[q][key] == t[q][key];
    }
  }

  lemma StoreSetLookup(t: Tables, name: Bytes, v: Object)
    requires Partitioned(t) && Indexable(name) && NulFree(name) && Canonical(v)
    ensures var t' := StoreSet(t, name, Serialize(v));
            && Partitioned(t')
            && forall key :: Lookup(t', key) == if key == name then Some(Serialize(v)) else Lookup(t, key)
  {
    hide Serialize, Stored, Canonical, Indexable;
    StoredPrintedValue(v);
    ReplaceTable(t, TableOf(name), t[TableOf(name)][name := Serialize(v)]);
  }

  lemma StoreSetRefines(t: Tables, name: Bytes, v: Object)
    requires Partitioned(t) && Indexable(name) && NulFree(name) && Canonical(v)
    ensures var t' := StoreSet(t, name, Serialize(v));
            Partitioned(t') && Abs(t') == Abs(t)[name := v]
  {
    hide Serialize, Decode, Stored, Canonical, Indexable, Partitioned, StoreSet, Abs, Lookup;
    var t' := StoreSet(t, name, Serialize(v));
    StoreSetLookup(t, name, v);
    StoredPrintedValue(v);
    var expected := Abs(t)[name := v];
    forall key
      ensures key in Abs(t') <==> key in expected
      ensures key in Abs(t') ==> Abs(t')[key] == expected[key]
    {
      AbsAt(t, key);
      AbsAt(t', key);
    }
  }

  lemma StoreGetRefines(t: Tables, name: Bytes)
    requires Partitioned(t) && Indexable(name) && NulFree(name)
    ensures StoreGet(t, name).Some? <==> name in Abs(t)
    ensures name in Abs(t) ==>
              Stored(StoreGet(t, name).value) && Decode(StoreGet(t, name).value) == Abs(t)[name]
  {
    hide Decode, Stored, Partitioned, Abs;
    AbsAt(t, name);
  }

  lemma StoreDelLookup(t: Tables, name: Bytes)
    requires Partitioned(t) && Indexable(name) && NulFree(name)
    ensures var (t', deleted) := StoreDel(t, name);
            && Partitioned(t')
            && (deleted <==> Lookup(t, name).Some?)
            && forall key :: Lookup(t', key) == if key == name then None else Lookup(t, key)
  {
    hide Stored, Indexable;
    ReplaceTable(t, TableOf(name), t[TableOf(name)] - {name});
  }

  lemma StoreDelRefines(t: Tables, name: Bytes)
    requires Partitioned(t) && Indexable(name) && NulFree(name)
    ensures var (t', deleted) := StoreDel(t, name);
            && Partitioned(t')
            && Abs(t') == Abs(t) - {name}
            && (deleted <==> name in Abs(t))
            && |Abs(t)| == |Abs(t')| + (if deleted then 1 else 0)
  {
    hide Decode, Stored, Indexable, NulFree, Partitioned, StoreDel, Abs, Lookup;
    var t' := StoreDel(t, name).0;
    StoreDelLookup(t, name);
    AbsAt(t, name);
    var expected := Abs(t) - {name};
    forall key
      ensures key in Abs(t') <==> key in expected
      ensures key in Abs(t') ==> Abs(t')[key] == expected[key]
    {
      AbsAt(t, key);
      AbsAt(t', key);
    }
    RemoveOne(Abs(t), name);
  }

  lemma RemoveOne(m: Contents, key: Bytes)
    ensures |m| == |m - {key}| + (if key in m then 1 else 0)
  {
    assert (m - {key}).Keys == m.Keys - {key};
  }

  // ---- DEL ----

  predicate AllNulFree(names: seq<Bytes>) {
    forall i | 0 <= i < |names| :: NulFree(names[i])
  }

  function SetOf(names: seq<Bytes>): set<Bytes> {
    set i | 0 <= i < |names| :: names[i]
  }

  /** DEL counts the distinct keys that were present, whatever the order,
      repetitions and tables of its arguments; it removes exactly those; and it
      conserves: the old size is the new size plus the count. */
  lemma {:induction false} StoreDelAllRefines(t: Tables, names: seq<Bytes>)
    requires Partitioned(t) && AllIndexable(names) && AllNulFree(names)
    ensures var (t', count) := StoreDelAll(t, names);
            && Partitioned(t')
            && Abs(t') == Abs(t) - SetOf(names)
            && count == |Abs(t).Keys * SetOf(names)|
            && |Abs(t)| == |Abs(t')| + count
  {
    hide StoreDel, Partitioned, Indexable, NulFree, Abs;
    if names == [] {
      assert Abs(t).Keys * SetOf(names) == {};
    } else {
      var init, last := names[..|names| - 1], names[|names| - 1];
      SplitLast(names);
      hide SetOf, AllIndexable, AllNulFree;
      StoreDelAllRefines(t, init);
      StoreDelRefines(StoreDelAll(t, init).0, last);
      CountWithOneMore(Abs(t), SetOf(init), last);
    }
  }

  lemma SplitLast(names: seq<Bytes>)
    requires names != [] && AllIndexable(names) && AllNulFree(names)
    ensures var init, last := names[..|names| - 1], names[|names| - 1];
            && AllIndexable(init) && AllNulFree(init) && Indexable(last) && NulFree(last)
            && SetOf(names) == SetOf(init) + {last}
  {
    hide Indexable, NulFree;
  }

  lemma CountWithOneMore(m: Contents, doomed: set<Bytes>, last: Bytes)
    ensures |m.Keys * (doomed + {last})|
         == |m.Keys * doomed| + (if last in m - doomed then 1 else 0)
    ensures m - doomed - {last} == m - (doomed + {last})
  {
    if last in m - doomed {
      assert m.Keys * (doomed + {last}) == m.Keys * doomed + {last};
    } else {
      assert m.Keys * (doomed + {last}) == m.Keys * doomed;
    }
  }

  // ---- commands, requests, runs ----

  lemma KeysAreNulFree(command: Object)
    requires Canonical(command)
    ensures AllNulFree(KeysOf(command))
  {
    if Classify(command) != InvalidCommand {
      forall i | 0 <= i < |command.items|
        ensures NulFree(ToText(command.items[i]))
      {
        ToTextIsNulFree(command.items[i]);
      }
    }
  }

  /** One command, on the ten tables and on the one map: the same reply, flag
      included, and the same contents afterwards. */
  lemma ExecuteRefines(t: Tables, command: Object)
    requires Partitioned(t) && Canonical(command) && AllIndexable(KeysOf(command))
    ensures var (t', reply) := Execute(t, command);
            Partitioned(t') && (Abs(t'), reply) == MapExecute(Abs(t), command)
  {
    hide Partitioned, Indexable, NulFree, Stored, StoreSet, StoreGet, StoreDel, Serialize, ToText;
    KeysAreNulFree(command);
    var names := KeysOf(command);
    match Classify(command)
    case InvalidCommand =>
    case GetCommand => ExecuteGetRefines(t, names[0]);
    case SetCommand => StoreSetRefines(t, names[0], command.items[2]);
    case DelCommand =>
      StoreDelAllRefines(t, names);
      var doomed := set i | 1 <= i < |command.items| :: ToText(command.items[i]);
      DelArguments(command, doomed);
  }

  lemma ExecuteGetRefines(t: Tables, name: Bytes)
    requires Partitioned(t) && Indexable(name) && NulFree(name)
    ensures ExecuteGet(t, name)
         == if name in Abs(t) then Reply(true, Abs(t)[name]) else Reply(false, NULL_BULK)
  {
    hide RespSyntax.GetObject, Partitioned, StoreGet;
    StoreGetRefines(t, name);
  }

  lemma DelArguments(command: Object, doomed: set<Bytes>)
    requires Classify(command) == DelCommand
    requires doomed == set i | 1 <= i < |command.items| :: ToText(command.items[i])
    ensures doomed == SetOf(KeysOf(command))
  {
    hide ToText, Classify;
    var names := KeysOf(command);
    forall i | 1 <= i < |command.items|
      ensures ToText(command.items[i]) in SetOf(names)
    {
      assert names[i - 1] == ToText(command.items[i]);
    }
    forall j | 0 <= j < |names|
      ensures names[j] in doomed
    {
      assert names[j] == ToText(command.items[j + 1]);
    }
  }

  lemma HandleRefines(t: Tables, request: Bytes)
    requires Partitioned(t) && Servable(request)
    ensures var (t', reply) := Handle(t, request);
            Partitioned(t') && (Abs(t'), reply) == MapHandle(Abs(t), request)
  {
    hide RespSyntax.GetObject, Execute, MapExecute, Partitioned;
    var parsed := RespSyntax.GetObject(request);
    if parsed.err == RespSyntax.SUCCESS {
      RespLaws.ParsedIsCanonical(request);
      ExecuteRefines(t, parsed.value.value);
    }
  }

  predicate AllServable(requests: seq<Bytes>) {
    forall i | 0 <= i < |requests| :: Servable(requests[i])
  }

  /** The server and the reference, over a sequence of requests: the state after
      the last one, and every reply. */
  function Run(t: Tables, requests: seq<Bytes>): (r: (Tables, seq<Reply>))
    requires AllServable(requests)
    ensures |r.1| == |requests|
  {
    if requests == [] then (t, []) else
      var (before, replies) := Run(t, requests[..|requests| - 1]);
      var (after, reply) := Handle(before, requests[|requests| - 1]);
      (after, replies + [reply])
  }

  function MapRun(m: Contents, requests: seq<Bytes>): (r: (Contents, seq<Reply>))
    ensures |r.1| == |requests|
  {
    if requests == [] then (m, []) else
      var (before, replies) := MapRun(m, requests[..|requests| - 1]);
      var (after, reply) := MapHandle(before, requests[|requests| - 1]);
      (after, replies + [reply])
  }

  /** For every sequence of request texts, from every well-partitioned store, the
      replies and the contents are those of one map. Since it holds of every
      sequence it holds after each request. */
  lemma {:induction false} RunRefines(t: Tables, requests: seq<Bytes>)
    requires Partitioned(t) && AllServable(requests)
    ensures var (t', replies) := Run(t, requests);
            Partitioned(t') && (Abs(t'), replies) == MapRun(Abs(t), requests)
  {
    if requests != [] {
      hide Handle, MapHandle, Partitioned, Servable, Abs;
      RunRefines(t, requests[..|requests| - 1]);
      HandleRefines(Run(t, requests[..|requests| - 1]).0, requests[|requests| - 1]);
    }
  }

  /** After any sequence of requests to a fresh server, every stored string parses
      in full to a value that prints as that string: the branch of GET for values
      that do not parse is never taken, and the bytes of its reply are the bytes
      that SET put there. */
  lemma StoredTextsAlwaysParse(requests: seq<Bytes>, name: Bytes)
    requires AllServable(requests) && Indexable(name) && NulFree(name)
    ensures var t := Run(EMPTY_TABLES, requests).0;
            var stored := StoreGet(t, name);
            && (stored.Some? ==> RespSyntax.GetObject(stored.value).err == RespSyntax.SUCCESS)
            && (stored.Some? ==> Serialize(ExecuteGet(t, name).value) == stored.value)
  {
    hide RespSyntax.GetObject, Partitioned, Run, MapRun, Serialize, StoreGet;
    EmptyTables();
    RunRefines(EMPTY_TABLES, requests);
    StoreGetRefines(Run(EMPTY_TABLES, requests).0, name);
  }

  // ---- the replies a command may have ----

  lemma GetReplyIsPossible(t: Tables, name: Bytes)
    requires Partitioned(t) && Indexable(name) && NulFree(name)
    ensures var reply := ExecuteGet(t, name);
            reply == Reply(false, NULL_BULK) || (reply.fatal && Canonical(reply.value))
  {
    hide Partitioned, Indexable, NulFree, StoreGet, RespSyntax.GetObject;
    StoreGetRefines(t, name);
    var stored := StoreGet(t, name);
    if stored.Some? && RespSyntax.GetObject(stored.value).err == RespSyntax.SUCCESS {
      RespLaws.ParsedIsCanonical(stored.value);
    }
  }


  lemma {:induction false} DelCountIsBounded(t: Tables, names: seq<Bytes>)
    requires AllIndexable(names)
    ensures StoreDelAll(t, names).1 <= |names|
  {
    if names != [] {
      DelCountIsBounded(t, names[..|names| - 1]);
    }
  }

  lemma HandleAnswers(t: Tables, request: Bytes)
    requires Partitioned(t) && Servable(request)
    ensures Answers(request, Handle(t, request).1)
  {
    hide RespSyntax.GetObject, Partitioned, Canonical, StoreDel, ToText, Indexable, NulFree;
    var parsed := RespSyntax.GetObject(request);
    if parsed.err == RespSyntax.SUCCESS {
      var command := parsed.value.value;
      RespLaws.ParsedIsCanonical(request);
      KeysAreNulFree(command);
      match Classify(command)
      case GetCommand => GetReplyIsPossible(t, KeysOf(command)[0]);
      case DelCommand => DelCountIsBounded(t, KeysOf(command));
      case _ =>
    }
  }
}

/** What a client can rely on, in terms of the bytes it sends: a value it sets is the
    value it gets, whatever requests about other keys come in between. */
module Sessions {
  import opened ByteStrings
  import opened RespObject
  import opened Commands
  import opened Refinement
  import RespSyntax
  import RespLaws

  function Bulk(text: Bytes): Object { BulkString(text, false) }

  function CommandOf(name: Bytes, args: seq<Object>): Object { Array([Bulk(name)] + args) }

  function BulksOf(keys: seq<Bytes>): seq<Object> {
    seq(|keys|, i requires 0 <= i < |keys| => Bulk(keys[i]))
  }

  function SetRequest(key: Bytes, value: Object): Bytes {
    Serialize(CommandOf(SET_TEXT, [Bulk(key), value]))
  }

  function GetRequest(key: Bytes): Bytes { Serialize(CommandOf(GET_TEXT, [Bulk(key)])) }

  function DelRequest(keys: seq<Bytes>): Bytes { Serialize(CommandOf(DEL_TEXT, BulksOf(keys))) }

  /** A key that a client can send and the server can place. */
  predicate UsableKey(key: Bytes) { Canonical(Bulk(key)) && Indexable(key) }

  /** The request neither sets nor deletes the key. */
  predicate Leaves(request: Bytes, key: Bytes) {
    var parsed := RespSyntax.GetObject(request);
    parsed.err == RespSyntax.SUCCESS ==>
      var kind := Classify(parsed.value.value);
      kind == SetCommand || kind == DelCommand ==> key !in KeysOf(parsed.value.value)
  }

  // ---- the effect of a request on the one map ----

  lemma CommandParsesBack(name: Bytes, args: seq<Object>)
    requires name == SET_TEXT || name == GET_TEXT || name == DEL_TEXT
    requires AllCanonical(args) && |args| < INT_MAX
    ensures var command := CommandOf(name, args);
            && Canonical(command)
            && RespSyntax.GetObject(Serialize(command))
               == RespSyntax.Scan(RespSyntax.SUCCESS, Some(command), |Serialize(command)|)
  {
    hide RespSyntax.GetObject, Serialize;
    var command := CommandOf(name, args);
    assert Canonical(Bulk(name));
    assert AllCanonical([Bulk(name)] + args);
    RespLaws.RoundTrip(command, []);
    assert Serialize(command) + [] == Serialize(command);
  }

  lemma SetIsAnswered(m: Contents, key: Bytes, value: Object)
    requires UsableKey(key) && Canonical(value)
    ensures Servable(SetRequest(key, value))
    ensures MapHandle(m, SetRequest(key, value)) == (m[key := value], Reply(false, STORED))
  {
    hide RespSyntax.GetObject, Serialize, Canonical;
    CommandParsesBack(SET_TEXT, [Bulk(key), value]);
  }

  lemma GetIsAnswered(m: Contents, key: Bytes)
    requires UsableKey(key)
    ensures Servable(GetRequest(key))
    ensures MapHandle(m, GetRequest(key))
         == (m, if key in m then Reply(true, m[key]) else Reply(false, NULL_BULK))
  {
    hide RespSyntax.GetObject, Serialize, Canonical;
    CommandParsesBack(GET_TEXT, [Bulk(key)]);
  }

  lemma DelIsAnswered(m: Contents, keys: seq<Bytes>)
    requires 0 < |keys| < INT_MAX
    requires forall i | 0 <= i < |keys| :: UsableKey(keys[i])
    ensures Servable(DelRequest(keys))
    ensures MapHandle(m, DelRequest(keys))
         == (m - SetOf(keys), Reply(false, Integer(|m.Keys * SetOf(keys)|)))
  {
    hide RespSyntax.GetObject, Serialize, Canonical, Indexable;
    var command := CommandOf(DEL_TEXT, BulksOf(keys));
    CommandParsesBack(DEL_TEXT, BulksOf(keys));
    assert Classify(command) == DelCommand;
    forall i | 0 <= i < |keys|
      ensures ToText(command.items[i + 1]) == keys[i]
    {
      assert command.items[i + 1] == Bulk(keys[i]);
    }
    assert KeysOf(command) == keys;
    DelArguments(command, set i | 1 <= i < |command.items| :: ToText(command.items[i]));
  }

  lemma LeftAlone(m: Contents, request: Bytes, key: Bytes)
    requires Leaves(request, key)
    ensures var m' := MapHandle(m, request).0;
            (key in m' <==> key in m) && (key in m ==> m'[key] == m[key])
  {
    hide RespSyntax.GetObject, ToText;
    var parsed := RespSyntax.GetObject(request);
    if parsed.err == RespSyntax.SUCCESS {
      var command := parsed.value.value;
      if Classify(command) == DelCommand {
        var doomed := set i | 1 <= i < |command.items| :: ToText(command.items[i]);
        DelArguments(command, doomed);
        assert key !in doomed;
      }
    }
  }

  // ---- whole sessions ----

  lemma {:induction false} LeftAloneByAll(m: Contents, requests: seq<Bytes>, key: Bytes)
    requires forall i | 0 <= i < |requests| :: Leaves(requests[i], key)
    ensures var m' := MapRun(m, requests).0;
            (key in m' <==> key in m) && (key in m ==> m'[key] == m[key])
  {
    if requests != [] {
      hide Leaves, MapHandle;
      var init := requests[..|requests| - 1];
      LeftAloneByAll(m, init, key);
      LeftAlone(MapRun(m, init).0, requests[|requests| - 1], key);
    }
  }

  lemma RunIsHandledLast(t: Tables, requests: seq<Bytes>, last: Bytes)
    requires Partitioned(t) && AllServable(requests) && Servable(last)
    ensures AllServable(requests + [last])
    ensures var (m, reply) := MapHandle(MapRun(Abs(t), requests).0, last);
            && Partitioned(Run(t, requests + [last]).0)
            && Abs(Run(t, requests + [last]).0) == m
            && Run(t, requests + [last]).1 == Run(t, requests).1 + [reply]
  {
    hide Partitioned, Abs, Handle, MapHandle, Servable;
    var all := requests + [last];
    assert all[..|all| - 1] == requests;
    RunRefines(t, requests);
    RunRefines(t, all);
  }

  /** A GET answers with the value of the last SET of its key: for every store, and
      every sequence of requests after the SET that neither set nor delete the key,
      malformed ones included. */
  lemma GetFindsWhatSetPut(t: Tables, key: Bytes, value: Object, between: seq<Bytes>)
    requires Partitioned(t) && UsableKey(key) && Canonical(value)
    requires AllServable(between) && forall i | 0 <= i < |between| :: Leaves(between[i], key)
    ensures var session := [SetRequest(key, value)] + between;
            && AllServable(session + [GetRequest(key)])
            && Run(t, session + [GetRequest(key)]).1 == Run(t, session).1 + [Reply(true, value)]
  {
    hide Leaves, Servable, Partitioned, Abs, MapHandle, UsableKey, Serialize, Handle;
    var first := SetRequest(key, value);
    SetIsAnswered(Abs(t), key, value);
    var session := [first] + between;
    MapRunAfterOne(Abs(t), first, between);
    LeftAloneByAll(MapHandle(Abs(t), first).0, between, key);
    var m := MapRun(Abs(t), session).0;
    GetIsAnswered(m, key);
    RunIsHandledLast(t, session, GetRequest(key));
  }

  /** A GET after a DEL of its key, and of any others, finds nothing. */
  lemma GetFindsNothingAfterDel(t: Tables, key: Bytes, keys: seq<Bytes>, between: seq<Bytes>)
    requires Partitioned(t) && 0 < |keys| < INT_MAX && key in keys
    requires forall i | 0 <= i < |keys| :: UsableKey(keys[i])
    requires AllServable(between) && forall i | 0 <= i < |between| :: Leaves(between[i], key)
    ensures var session := [DelRequest(keys)] + between;
            && AllServable(session + [GetRequest(key)])
            && Run(t, session + [GetRequest(key)]).1 == Run(t, session).1 + [Reply(false, NULL_BULK)]
  {
    hide Leaves, Servable, Partitioned, Abs, MapHandle, UsableKey, Serialize, Handle;
    var first := DelRequest(keys);
    DelIsAnswered(Abs(t), keys);
    var session := [first] + between;
    MapRunAfterOne(Abs(t), first, between);
    LeftAloneByAll(MapHandle(Abs(t), first).0, between, key);
    var m := MapRun(Abs(t), session).0;
    assert key in SetOf(keys);
    GetIsAnswered(m, key);
    RunIsHandledLast(t, session, GetRequest(key));
  }

  lemma {:induction false} MapRunAfterOne(m: Contents, first: Bytes, rest: seq<Bytes>)
    ensures MapRun(m, [first] + rest).0 == MapRun(MapHandle(m, first).0, rest).0
  {
    hide MapHandle;
    var all := [first] + rest;
    if rest == [] {
      assert all[..|all| - 1] == [];
    } else {
      var init := rest[..|rest| - 1];
      assert all[..|all| - 1] == [first] + init;
      MapRunAfterOne(m, first, init);
    }
  }


  // ---- requests whose keys lie outside the tables, and replies that close ----

  /** A SET that is otherwise in order is served if and only if its key indexes the
      tables: the check of the command does not look at the key's first byte. */
  lemma SetIsServableExactly(key: Bytes, value: Object)
    requires Canonical(Bulk(key)) && Canonical(value)
    ensures var parsed := RespSyntax.GetObject(SetRequest(key, value));
            && parsed.err == RespSyntax.SUCCESS
            && Classify(parsed.value.value) == SetCommand
            && KeysOf(parsed.value.value) == [key]
    ensures Servable(SetRequest(key, value)) <==> Indexable(key)
  {
    hide RespSyntax.GetObject, Serialize, Canonical, Indexable;
    CommandParsesBack(SET_TEXT, [Bulk(key), value]);
    var command := CommandOf(SET_TEXT, [Bulk(key), value]);
    assert KeysOf(command) == [key];
    assert AllIndexable([key]) <==> Indexable(key) by {
      assert [key][0] == key;
    }
  }

  /** For example a key of the byte 255 arrives, and gives the index -1. */
  lemma KeyOutsideTheTables(value: Object)
    requires Canonical(value)
    ensures RespSyntax.GetObject(SetRequest([255], value)).err == RespSyntax.SUCCESS
    ensures !Servable(SetRequest([255], value)) && Partition([255]) == -1
  {
    hide RespSyntax.GetObject, Serialize, Servable;
    assert Canonical(Bulk([255]));
    SetIsServableExactly([255], value);
  }

  /** The reply closes the connection if and only if the request did not parse, or it
      is a GET that found its key. */
  lemma ReplyClosesExactly(t: Tables, request: Bytes)
    requires Partitioned(t) && Servable(request)
    ensures var parsed := RespSyntax.GetObject(request);
            Handle(t, request).1.fatal <==>
            || parsed.err != RespSyntax.SUCCESS
            || (Classify(parsed.value.value) == GetCommand
                && ToText(parsed.value.value.items[1]) in Abs(t))
  {
    hide RespSyntax.GetObject, Partitioned, Abs, Servable, ToText, Handle;
    HandleRefines(t, request);
  }
}

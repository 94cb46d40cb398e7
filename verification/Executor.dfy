/** The executor as the source writes it (src/orchestrator.cpp:549-843): methods
    that update ten data stores in place, proved to do what Commands says. */
module Executor {
  import opened ByteStrings
  import opened RespObject
  import opened DataStores
  import opened Commands
  import RespSyntax
  import RespParser

  class Orchestrator {
    const datastores: seq<DataStore>

    ghost predicate Valid() {
      && |datastores| == NUM_DATASTORES
      && forall i, j | 0 <= i < j < |datastores| :: datastores[i] != datastores[j]
    }

    ghost function Contents(): Tables
      requires Valid()
      reads datastores
    {
      seq(NUM_DATASTORES, i requires 0 <= i < NUM_DATASTORES reads datastores => datastores[i].table)
    }

    constructor ()
      ensures Valid() && Contents() == EMPTY_TABLES
      ensures forall i | 0 <= i < |datastores| :: fresh(datastores[i])
    {
      var stores: seq<DataStore> := [];
      for n := 0 to NUM_DATASTORES
        invariant |stores| == n
        invariant forall i | 0 <= i < n :: fresh(stores[i]) && stores[i].table == map[]
        invariant forall i, j | 0 <= i < j < n :: stores[i] != stores[j]
      {
        var store := new DataStore();
        stores := stores + [store];
      }
      datastores := stores;
    }

    method DoSet(command: Object) returns (reply: Reply)
      requires Valid() && Classify(command) == SetCommand && AllIndexable(KeysOf(command))
      modifies datastores
      ensures (Contents(), reply) == Execute(old(Contents()), command)
    {
      var name := ToTextByLoop(command.items[1]);
      assert name == KeysOf(command)[0];
      var p := TableOf(name);
      var value := SerializeToStream(command.items[2]);
      var success := datastores[p].SetCString(name, value);
      if success {
        reply := Reply(false, STORED);
      } else {
        reply := Reply(false, NOT_STORED);
      }
      assert Contents() == StoreSet(old(Contents()), name, value);
    }

    method DoGet(command: Object) returns (reply: Reply)
      requires Valid() && Classify(command) == GetCommand && AllIndexable(KeysOf(command))
      ensures (Contents(), reply) == Execute(Contents(), command)
    {
      hide RespSyntax.GetObject;
      var name := ToTextByLoop(command.items[1]);
      assert name == KeysOf(command)[0];
      var found, value := datastores[TableOf(name)].GetCString(name);
      if !found {
        return Reply(false, NULL_BULK);
      }
      var parser := new RespParser.Parser(value);
      var err, parsed := parser.GetObject();
      if err != RespSyntax.SUCCESS {
        return Reply(false, NULL_BULK);
      }
      reply := Reply(true, parsed.value);
    }

    method DoDelInternal(arg: Object) returns (deleted: bool)
      requires Valid() && Indexable(ToText(arg))
      modifies datastores
      ensures (Contents(), deleted) == StoreDel(old(Contents()), ToText(arg))
    {
      var key := ToTextByLoop(arg);
      deleted := datastores[TableOf(key)].DelCString(key);
      assert Contents() == StoreDel(old(Contents()), key).0;
    }

    method DoDel(command: Object) returns (reply: Reply)
      requires Valid() && Classify(command) == DelCommand && AllIndexable(KeysOf(command))
      modifies datastores
      ensures (Contents(), reply) == Execute(old(Contents()), command)
    {
      hide StoreDel, Indexable, ToText;
      var args := command.items;
      ghost var names := KeysOf(command);
      var delCount := 0;
      for i := 1 to |args|
        invariant (Contents(), delCount) == StoreDelAll(old(Contents()), names[..i - 1])
      {
        assert names[..i][..i - 1] == names[..i - 1] && names[i - 1] == ToText(args[i]);
        var deleted := DoDelInternal(args[i]);
        if deleted {
          delCount := delCount + 1;
        }
      }
      assert names[..|args| - 1] == names;
      reply := Reply(false, Integer(delCount));
    }

    method DoOperation(command: Object) returns (reply: Reply)
      requires Valid() && AllIndexable(KeysOf(command))
      modifies datastores
      ensures (Contents(), reply) == Execute(old(Contents()), command)
    {
      match Classify(command)
      case InvalidCommand => reply := Reply(false, INVALID_COMMAND);
      case GetCommand => reply := DoGet(command);
      case SetCommand => reply := DoSet(command);
      case DelCommand => reply := DoDel(command);
    }

    /** The core of a parse job: parse what was read and run it. */
    method ParseAndRun(request: Bytes) returns (reply: Reply)
      requires Valid() && Servable(request)
      modifies datastores
      ensures (Contents(), reply) == Handle(old(Contents()), request)
    {
      hide RespSyntax.GetObject, Execute;
      var parser := new RespParser.Parser(request);
      var err, parsed := parser.GetObject();
      if err != RespSyntax.SUCCESS {
        return ParseErrorReply(request);
      }
      reply := DoOperation(parsed.value);
    }
  }
}

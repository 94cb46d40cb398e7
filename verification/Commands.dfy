/** What the command executor (src/orchestrator.cpp) does to its ten tables of
    serialized values, and what it answers. */
module Commands {
  import opened ByteStrings
  import opened RespObject
  import RespSyntax

  const NUM_DATASTORES: nat := 10

  type Tables = t: seq<map<Bytes, Bytes>> | |t| == NUM_DATASTORES
    witness seq(NUM_DATASTORES, i => map[])

  const EMPTY_TABLES: Tables := seq(NUM_DATASTORES, i => map[])

  const GET_TEXT: Bytes := [103, 101, 116]  // "get"
  const DEL_TEXT: Bytes := [100, 101, 108]  // "del"
  const SET_TEXT: Bytes := [115, 101, 116]  // "set"
  const OK_TEXT: Bytes := [79, 75]          // "OK"

  // "Failed to set the value"
  const NOT_STORED_TEXT: Bytes :=
    [70, 97, 105, 108, 101, 100, 32, 116, 111, 32, 115, 101, 116, 32, 116, 104, 101, 32, 118, 97, 108, 117, 101]
  // "Invalid command"
  const INVALID_TEXT: Bytes :=
    [73, 110, 118, 97, 108, 105, 100, 32, 99, 111, 109, 109, 97, 110, 100]
  // "Unable to parse '" and "'. Try again."
  const UNABLE_TEXT: Bytes :=
    [85, 110, 97, 98, 108, 101, 32, 116, 111, 32, 112, 97, 114, 115, 101, 32, 39]
  const TRY_AGAIN_TEXT: Bytes := [39, 46, 32, 84, 114, 121, 32, 97, 103, 97, 105, 110, 46]

  const STORED := SimpleString(OK_TEXT)
  const NOT_STORED := ErrorString(NOT_STORED_TEXT)
  const INVALID_COMMAND := ErrorString(INVALID_TEXT)

  datatype CommandType = InvalidCommand | GetCommand | DelCommand | SetCommand

  /** An answer, and whether the connection is to be closed after it. */
  datatype Reply = Reply(fatal: bool, value: Object)

  // ---- choosing the table ----

  /** The value of a plain (signed, 8-bit) char. */
  function SignedChar(b: byte): int { if b < 128 then b else b - 256 }

  /** The remainder of a division that truncates towards zero. */
  function TruncatingMod(n: int, m: int): int
    requires m > 0
  {
    if n >= 0 then n % m else -((-n) % m)
  }

  /** The index computed for a name; negative for most names that do not start
      with an ASCII byte. */
  function Partition(name: Bytes): int {
    if name == [] then 0 else TruncatingMod(SignedChar(name[0]), NUM_DATASTORES)
  }

  /** The names whose index lies inside the array of tables. */
  predicate Indexable(name: Bytes) {
    name == [] || name[0] < 128 || (256 - name[0]) % NUM_DATASTORES == 0
  }

  lemma PartitionInRange(name: Bytes)
    ensures 0 <= Partition(name) < NUM_DATASTORES <==> Indexable(name)
  {
    if name != [] && name[0] >= 128 {
      assert SignedChar(name[0]) < 0;
    }
  }

  /** The index itself: the first byte modulo ten, or zero for the empty name; bytes from
      128 on count as negative numbers, and so does their remainder. */
  lemma PartitionByFirstByte(name: Bytes)
    ensures name == [] ==> Partition(name) == 0
    ensures name != [] && name[0] < 128 ==> Partition(name) == name[0] % 10
    ensures name != [] && name[0] >= 128 ==> Partition(name) + (256 - name[0]) % 10 == 0
  {
  }

  function TableOf(name: Bytes): (p: nat)
    requires Indexable(name)
    ensures p < NUM_DATASTORES && p == Partition(name)
  {
    PartitionInRange(name);
    Partition(name)
  }

  // ---- single keys ----

  function StoreSet(t: Tables, name: Bytes, value: Bytes): Tables
    requires Indexable(name)
  {
    var p := TableOf(name);
    t[p := t[p][CString(name) := CString(value)]]
  }

  function StoreGet(t: Tables, name: Bytes): Option<Bytes>
    requires Indexable(name)
  {
    var table := t[TableOf(name)];
    if CString(name) in table then Some(table[CString(name)]) else None
  }

  function StoreDel(t: Tables, name: Bytes): (Tables, bool)
    requires Indexable(name)
  {
    var p := TableOf(name);
    (t[p := t[p] - {CString(name)}], CString(name) in t[p])
  }

  // ---- commands ----

  predicate IsString(v: Object) { v.BulkString? || v.SimpleString? }

  function Classify(command: Object): (r: CommandType)
    ensures r != InvalidCommand ==> command.Array? && |command.items| >= 2
    ensures r == SetCommand ==> |command.items| >= 3
  {
    if !command.IsAggregate() || |command.items| <= 1 then InvalidCommand else
      var name := ToText(command.items[0]);
      var keyed := IsString(command.items[1]);
      if name == GET_TEXT || name == DEL_TEXT then
        if !keyed then InvalidCommand
        else if name == GET_TEXT then GetCommand
        else DelCommand
      else if name == SET_TEXT then
        if |command.items| >= 3 && keyed then SetCommand else InvalidCommand
      else InvalidCommand
  }

  /** Which commands pass: by the text of the first element (the lower-case words "get",
      "del" and "set", as bytes), the number of elements, and the kind of the second;
      that the rest of a DEL or the value of a SET may be of any kind, and that further
      elements of a GET or SET are allowed. */
  lemma CommandsThatPass(command: Object)
    ensures var keyed := command.Array? && |command.items| >= 2 && IsString(command.items[1]);
            && (Classify(command) == GetCommand <==> keyed && ToText(command.items[0]) == [103, 101, 116])
            && (Classify(command) == DelCommand <==> keyed && ToText(command.items[0]) == [100, 101, 108])
            && (Classify(command) == SetCommand
                <==> keyed && ToText(command.items[0]) == [115, 101, 116] && |command.items| >= 3)
  {
    assert GET_TEXT[0] != DEL_TEXT[0] && GET_TEXT[0] != SET_TEXT[0] && SET_TEXT[0] != DEL_TEXT[0];
  }

  /** The names a command uses as keys: for DEL all its arguments, which may be
      arrays too. */
  function KeysOf(command: Object): seq<Bytes> {
    match Classify(command)
    case InvalidCommand => []
    case DelCommand =>
      seq(|command.items| - 1, i requires 0 <= i < |command.items| - 1 => ToText(command.items[i + 1]))
    case _ => [ToText(command.items[1])]
  }

  predicate AllIndexable(names: seq<Bytes>) {
    forall i | 0 <= i < |names| :: Indexable(names[i])
  }

  /** DEL works through its arguments from left to right. */
  function StoreDelAll(t: Tables, names: seq<Bytes>): (Tables, nat)
    requires AllIndexable(names)
  {
    if names == [] then (t, 0) else
      var (before, count) := StoreDelAll(t, names[..|names| - 1]);
      var (after, deleted) := StoreDel(before, names[|names| - 1]);
      (after, if deleted then count + 1 else count)
  }

  function ExecuteSet(t: Tables, name: Bytes, value: Object): (Tables, Reply)
    requires Indexable(name)
  {
    (StoreSet(t, name, Serialize(value)), Reply(false, STORED))
  }

  /** A value that is found is parsed again; the flag that comes with it is the
      one that closes the connection. */
  function ExecuteGet(t: Tables, name: Bytes): Reply
    requires Indexable(name)
  {
    match StoreGet(t, name)
    case None => Reply(false, NULL_BULK)
    case Some(text) =>
      var parsed := RespSyntax.GetObject(text);
      if parsed.err != RespSyntax.SUCCESS then Reply(false, NULL_BULK)
      else Reply(true, parsed.value.value)
  }

  function Execute(t: Tables, command: Object): (Tables, Reply)
    requires AllIndexable(KeysOf(command))
  {
    match Classify(command)
    case InvalidCommand => (t, Reply(false, INVALID_COMMAND))
    case GetCommand => (t, ExecuteGet(t, KeysOf(command)[0]))
    case SetCommand => ExecuteSet(t, KeysOf(command)[0], command.items[2])
    case DelCommand =>
      var (after, count) := StoreDelAll(t, KeysOf(command));
      (after, Reply(false, Integer(count)))
  }

  // ---- requests ----

  function ParseErrorReply(request: Bytes): Reply {
    Reply(true, ErrorString(UNABLE_TEXT + request + TRY_AGAIN_TEXT))
  }

  /** A request whose keys, if it parses to a command, index the tables. */
  predicate Servable(request: Bytes) {
    var parsed := RespSyntax.GetObject(request);
    parsed.err == RespSyntax.SUCCESS ==> AllIndexable(KeysOf(parsed.value.value))
  }

  function Handle(t: Tables, request: Bytes): (Tables, Reply)
    requires Servable(request)
  {
    var parsed := RespSyntax.GetObject(request);
    if parsed.err != RespSyntax.SUCCESS then (t, ParseErrorReply(request))
    else Execute(t, parsed.value.value)
  }

  // ---- possible answers ----

  /** What may be answered to a command, whatever the tables hold. */
  predicate PossibleReply(command: Object, reply: Reply) {
    match Classify(command)
    case InvalidCommand => reply == Reply(false, INVALID_COMMAND)
    case GetCommand => reply == Reply(false, NULL_BULK) || (reply.fatal && Canonical(reply.value))
    case SetCommand => reply == Reply(false, STORED)
    case DelCommand =>
      !reply.fatal && reply.value.Integer? && 0 <= reply.value.number <= |KeysOf(command)|
  }

  /** What may be answered to the bytes of one read. */
  predicate Answers(batch: Bytes, reply: Reply) {
    var parsed := RespSyntax.GetObject(batch);
    if parsed.err != RespSyntax.SUCCESS then reply == ParseErrorReply(batch)
    else PossibleReply(parsed.value.value, reply)
  }
}

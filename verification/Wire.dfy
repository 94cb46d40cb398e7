/** The server as a client knows it: which bytes are which command, and which bytes are
    sent back. Every byte that the protocol fixes is written here as its number. */
module Wire {
  import opened ByteStrings
  import opened RespObject
  import opened Commands
  import opened Refinement
  import opened RespGrammar
  import opened ReplyReader
  import RespSyntax
  import RespLaws

  // ---- the words of the protocol ----

  /** At least two elements, the second of them a text. */
  predicate Keyed(command: Object) {
    && command.Array? && |command.items| >= 2
    && (command.items[1].BulkString? || command.items[1].SimpleString?)
  }

  predicate IsGet(command: Object) {
    Keyed(command) && ToText(command.items[0]) == [103, 101, 116]
  }

  predicate IsDel(command: Object) {
    Keyed(command) && ToText(command.items[0]) == [100, 101, 108]
  }

  predicate IsSet(command: Object) {
    Keyed(command) && |command.items| >= 3 && ToText(command.items[0]) == [115, 101, 116]
  }

  /** Which values are commands, and which command: lower-case "get", "del" and "set",
      and nothing else. */
  lemma CommandsByTheirWords(command: Object)
    ensures Classify(command) == GetCommand <==> IsGet(command)
    ensures Classify(command) == DelCommand <==> IsDel(command)
    ensures Classify(command) == SetCommand <==> IsSet(command)
  {
    hide ToText, Classify;
    CommandsThatPass(command);
  }

  function KeyOf(command: Object): Bytes
    requires Keyed(command)
  {
    ToText(command.items[1])
  }

  function DoomedBy(command: Object): set<Bytes>
    requires Keyed(command)
  {
    set i | 1 <= i < |command.items| :: ToText(command.items[i])
  }

  // ---- the texts of replies ----

  lemma TextsOfReplies()
    ensures STORED == SimpleString([79, 75])
    ensures INVALID_COMMAND
         == ErrorString([73, 110, 118, 97, 108, 105, 100, 32, 99, 111, 109, 109, 97, 110, 100])
    ensures NOT_STORED
         == ErrorString([70, 97, 105, 108, 101, 100, 32, 116, 111, 32, 115, 101, 116, 32, 116, 104, 101,
                         32, 118, 97, 108, 117, 101])
    ensures UNABLE_TEXT
         == [85, 110, 97, 98, 108, 101, 32, 116, 111, 32, 112, 97, 114, 115, 101, 32, 39]
    ensures TRY_AGAIN_TEXT == [39, 46, 32, 84, 114, 121, 32, 97, 103, 97, 105, 110, 46]
  {
  }

  /** The bytes that a write job sends for a reply. */
  function SentFor(reply: Reply): Bytes {
    CString(Serialize(reply.value))
  }

  /** The first bytes tell what kind of value is sent, and the rest is its text. */
  lemma SentBytes(value: Bytes, n: nat)
    requires NulFree(value)
    ensures CString(Serialize(SimpleString(value))) == [43] + value + [13, 10]
    ensures CString(Serialize(ErrorString(value))) == [45] + value + [13, 10]
    ensures CString(Serialize(NULL_BULK)) == [36, 45, 49, 13, 10]
    ensures CString(Serialize(Integer(n))) == [58] + Decimal(n) + [13, 10]
  {
    assert NulFree([43] + value + [13, 10]);
    assert NulFree([45] + value + [13, 10]);
    assert NulFree([58] + Decimal(n) + [13, 10]);
    assert NulFree([36, 45, 49, 13, 10]);
  }

  // ---- what is answered to a command ----

  lemma EncodedIsParsed(request: Bytes, command: Object, n: nat)
    requires Encodes(request, command, n)
    ensures RespSyntax.GetObject(request).err == RespSyntax.SUCCESS
    ensures RespSyntax.GetObject(request).value == Some(command)
    ensures Canonical(command)
  {
    hide RespSyntax.GetObject, Encodes, Canonical;
    AcceptsExactlyTheGrammar(request, command, n);
    RespLaws.ParsedIsCanonical(request);
  }

  /** A GET, however it is encoded and whatever follows it: it changes nothing; if the
      key is present its value is printed back and the connection closes, otherwise the
      client is sent the null bulk string. */
  lemma GetOnTheWire(t: Tables, request: Bytes, command: Object, n: nat)
    requires Partitioned(t) && Encodes(request, command, n) && IsGet(command) && Servable(request)
    ensures var (t', reply) := Handle(t, request);
            var key := KeyOf(command);
            && Partitioned(t') && Abs(t') == Abs(t)
            && (reply.fatal <==> key in Abs(t))
            && SentFor(reply) == (if key in Abs(t) then CString(Serialize(Abs(t)[key]))
                                  else [36, 45, 49, 13, 10])
  {
    hide RespSyntax.GetObject, Encodes, Canonical, Partitioned, Abs, Servable, Serialize, Handle, ToText;
    EncodedIsParsed(request, command, n);
    CommandsByTheirWords(command);
    HandleRefines(t, request);
    SentBytes([], 0);
  }

  /** On tables of any contents, even such as the server never makes: a GET answers with
      what the stored text encodes, and with the null bulk string if there is no text or
      it encodes nothing; only the former closes the connection. */
  lemma GetFromAnyTables(t: Tables, name: Bytes)
    requires Indexable(name)
    ensures var stored := StoreGet(t, name);
            && (stored.None? ==> ExecuteGet(t, name) == Reply(false, BulkString([], true)))
            && (stored.Some? ==>
                 && (forall v: Object, n: nat | Encodes(stored.value, v, n) ::
                      ExecuteGet(t, name) == Reply(true, v))
                 && ((forall v: Object, n: nat :: !Encodes(stored.value, v, n)) ==>
                      ExecuteGet(t, name) == Reply(false, BulkString([], true))))
  {
    hide RespSyntax.GetObject, Encodes, StoreGet;
    var stored := StoreGet(t, name);
    if stored.Some? {
      NoValueExactly(stored.value);
      forall v: Object, n: nat | Encodes(stored.value, v, n)
        ensures ExecuteGet(t, name) == Reply(true, v)
      {
        AcceptsExactlyTheGrammar(stored.value, v, n);
      }
    }
  }

  /** A SET stores the value under the key and is told "+OK". */
  lemma SetOnTheWire(t: Tables, request: Bytes, command: Object, n: nat)
    requires Partitioned(t) && Encodes(request, command, n) && IsSet(command) && Servable(request)
    ensures var (t', reply) := Handle(t, request);
            && Partitioned(t') && Abs(t') == Abs(t)[KeyOf(command) := command.items[2]]
            && !reply.fatal && SentFor(reply) == [43, 79, 75, 13, 10]
  {
    hide RespSyntax.GetObject, Encodes, Canonical, Partitioned, Abs, Servable, Serialize, Handle, ToText;
    EncodedIsParsed(request, command, n);
    CommandsByTheirWords(command);
    HandleRefines(t, request);
    TextsOfReplies();
    SentBytes([79, 75], 0);
  }

  /** A DEL removes its keys and is told how many of them were present, as a colon and
      plain figures. */
  lemma DelOnTheWire(t: Tables, request: Bytes, command: Object, n: nat) returns (figures: Bytes)
    requires Partitioned(t) && Encodes(request, command, n) && IsDel(command) && Servable(request)
    ensures var (t', reply) := Handle(t, request);
            && Partitioned(t') && Abs(t') == Abs(t) - DoomedBy(command)
            && !reply.fatal && SentFor(reply) == [58] + figures + [13, 10]
    ensures AllFigures(figures) && Positional(figures) == |Abs(t).Keys * DoomedBy(command)|
    ensures figures != [] && (figures[0] == 48 ==> figures == [48])
  {
    hide RespSyntax.GetObject, Encodes, Canonical, Partitioned, Abs, Servable, Serialize, Handle, ToText,
      Decimal, Positional;
    EncodedIsParsed(request, command, n);
    CommandsByTheirWords(command);
    HandleRefines(t, request);
    var count := |Abs(t).Keys * DoomedBy(command)|;
    figures := Decimal(count);
    DecimalIsPlain(count);
    SentBytes([], count);
  }

  lemma RefusalIsSent()
    ensures CString(Serialize(INVALID_COMMAND))
         == [45] + [73, 110, 118, 97, 108, 105, 100, 32, 99, 111, 109, 109, 97, 110, 100] + [13, 10]
  {
    hide Serialize, CString;
    TextsOfReplies();
    assert NulFree(INVALID_TEXT);
    SentBytes(INVALID_TEXT, 0);
  }

  /** Anything else that parses is refused with "-Invalid command". */
  lemma RefusedOnTheWire(t: Tables, request: Bytes, command: Object, n: nat)
    requires Partitioned(t) && Encodes(request, command, n)
    requires !IsGet(command) && !IsSet(command) && !IsDel(command)
    ensures Servable(request)
    ensures var (t', reply) := Handle(t, request);
            && t' == t && !reply.fatal
            && SentFor(reply)
               == [45] + [73, 110, 118, 97, 108, 105, 100, 32, 99, 111, 109, 109, 97, 110, 100] + [13, 10]
  {
    hide RespSyntax.GetObject, Encodes, Canonical, Partitioned, Serialize, CString, ToText, IsGet, IsSet, IsDel;
    EncodedIsParsed(request, command, n);
    CommandsByTheirWords(command);
    RefusalIsSent();
  }

  // ---- what is answered to bytes that are no value ----

  predicate IsNoValue(request: Bytes) {
    RespSyntax.GetObject(request).err != RespSyntax.SUCCESS
  }

  lemma NoValueExactly(request: Bytes)
    ensures IsNoValue(request) <==> forall v: Object, n: nat :: !Encodes(request, v, n)
  {
    hide RespSyntax.GetObject, Encodes;
    AcceptsExactlyTheGrammar(request, NULL_BULK, 0);
  }

  /** The tables stay as they are, the connection closes, and the client is sent an error
      with its own bytes between two fixed texts. */
  lemma UnparsedOnTheWire(t: Tables, request: Bytes)
    requires forall v: Object, n: nat :: !Encodes(request, v, n)
    ensures Servable(request)
    ensures var (t', reply) := Handle(t, request);
            && t' == t && reply.fatal && reply.value.ErrorString?
            && reply.value.value
               == [85, 110, 97, 98, 108, 101, 32, 116, 111, 32, 112, 97, 114, 115, 101, 32, 39]
                  + request + [39, 46, 32, 84, 114, 121, 32, 97, 103, 97, 105, 110, 46]
            && (NulFree(request) ==> SentFor(reply) == [45] + reply.value.value + [13, 10])
  {
    hide RespSyntax.GetObject, Encodes, Serialize;
    NoValueExactly(request);
    TextsOfReplies();
    var text := Handle(t, request).1.value.value;
    if NulFree(request) {
      SentBytes(text, 0);
    }
  }

  /** No command is ever answered so. */
  lemma ParseErrorsStandOut(request: Bytes, command: Object, reply: Reply)
    requires PossibleReply(command, reply)
    ensures reply != ParseErrorReply(request)
    ensures reply.value != ParseErrorReply(request).value
  {
    hide ToText;
    TextsOfReplies();
    var text := ParseErrorReply(request).value.value;
    assert text[0] == 85;
  }

  // ---- which commands the server can serve ----

  /** The index of a table lies within the ten: for the empty key, for an ASCII byte at
      the front, or for one that is a multiple of ten below 256. */
  predicate Placeable(key: Bytes) {
    key == [] || key[0] < 128 || (256 - key[0]) % 10 == 0
  }

  lemma ServableByTheKeys(request: Bytes, command: Object, n: nat)
    requires Encodes(request, command, n)
    ensures IsGet(command) || IsSet(command) ==> (Servable(request) <==> Placeable(KeyOf(command)))
    ensures IsDel(command) ==>
              (Servable(request) <==> forall key | key in DoomedBy(command) :: Placeable(key))
  {
    hide RespSyntax.GetObject, Encodes, Canonical, ToText;
    EncodedIsParsed(request, command, n);
    CommandsByTheirWords(command);
    var names := KeysOf(command);
    if IsDel(command) {
      DelArguments(command, DoomedBy(command));
      assert forall i | 0 <= i < |names| :: names[i] in SetOf(names);
    } else if IsGet(command) || IsSet(command) {
      assert names == [KeyOf(command)];
      assert names[0] == KeyOf(command);
    }
  }

  // ---- what the client reads ----

  /** A client that reads what was sent gets the server's reply, and nothing of what
      comes after it, for every request that encodes a value; and for one that does not
      if and only if the request has no line end in it: the error that quotes the
      request is itself one line on the wire. */
  lemma ClientReadsTheReply(t: Tables, request: Bytes, rest: Bytes)
    requires Partitioned(t) && Servable(request)
    ensures var reply := Handle(t, request).1;
            var wire := Serialize(reply.value);
            ReadReply(wire + rest) == Some(Read(reply.value, |wire|))
            <==> (exists v: Object, n: nat :: Encodes(request, v, n)) || OneLine(request)
  {
    hide RespSyntax.GetObject, Encodes, Partitioned, Serialize, ReadReply, Servable, Handle;
    var reply := Handle(t, request).1;
    HandleAnswers(t, request);
    ReadsBackExactly(reply.value, rest);
    NoValueExactly(request);
    if IsNoValue(request) {
      UnparsedOnTheWire(t, request);
      QuotedLine(UNABLE_TEXT, request, TRY_AGAIN_TEXT);
    } else {
      CommandRepliesAreReadable(RespSyntax.GetObject(request).value.value, reply);
    }
  }

  lemma {:induction false} CanonicalIsReadable(v: Object)
    requires Canonical(v)
    ensures Readable(v)
    decreases v
  {
    if v.Array? {
      forall i | 0 <= i < |v.items|
        ensures Readable(v.items[i])
      {
        CanonicalIsReadable(v.items[i]);
      }
    }
  }

  lemma CommandRepliesAreReadable(command: Object, reply: Reply)
    requires PossibleReply(command, reply)
    ensures Readable(reply.value)
  {
    hide ToText, KeysOf, Classify;
    if Canonical(reply.value) {
      CanonicalIsReadable(reply.value);
    }
  }

  /** Quoting puts no line end where there was none. */
  lemma QuotedLine(before: Bytes, text: Bytes, after: Bytes)
    requires before != [] && after != [] && CrLfFree(before) && CrLfFree(after)
    ensures OneLine(before + text + after) <==> OneLine(text)
  {
    var all := before + text + after;
    var n, m := |before|, |text|;
    assert forall i | 0 <= i < n :: all[i] == before[i] && IsNotCrOrLf(before[i]);
    assert forall i | n + m <= i < |all| :: all[i] == after[i - n - m] && IsNotCrOrLf(after[i - n - m]);
    forall i | 0 <= i < m
      ensures EndsLine(text, i) <==> EndsLine(all, n + i)
    {
    }
    if !OneLine(all) {
      var k :| 0 <= k < |all| && EndsLine(all, k);
      assert EndsLine(text, k - n);
    }
  }

  // ---- commands in bytes ----

  function PrintedKey(key: Bytes): Bytes {
    [36] + Decimal(|key|) + [13, 10] + key + [13, 10]
  }

  function PrintedKeys(keys: seq<Bytes>): Bytes {
    if keys == [] then [] else PrintedKey(keys[0]) + PrintedKeys(keys[1..])
  }

  function Bulks(keys: seq<Bytes>): seq<Object> {
    seq(|keys|, i requires 0 <= i < |keys| => BulkString(keys[i], false))
  }

  /** A key that fits the wire. */
  predicate Sendable(key: Bytes) { Canonical(BulkString(key, false)) }

  lemma PrintedIsEncoding(v: Object, rest: Bytes)
    requires Canonical(v)
    ensures Encodes(Serialize(v) + rest, v, |Serialize(v)|)
  {
    hide RespSyntax.GetObject, Encodes, Serialize;
    RespLaws.RoundTrip(v, rest);
    AcceptsExactlyTheGrammar(Serialize(v) + rest, v, |Serialize(v)|);
  }

  lemma {:induction false} PrintedBulks(keys: seq<Bytes>)
    ensures SerializeAll(Bulks(keys)) == PrintedKeys(keys)
  {
    if keys != [] {
      PrintedBulks(keys[1..]);
      assert Bulks(keys)[1..] == Bulks(keys[1..]);
    }
  }

  /** A command of a word of three letters and its arguments: a star and the number of
      elements, then "$3" and the word, then the arguments as they print. */
  lemma CommandInBytes(word: Bytes, args: seq<Object>, rest: Bytes)
    requires |word| == 3 && Sendable(word) && AllCanonical(args) && |args| < INT_MAX
    ensures var request :=
              [42] + Decimal(|args| + 1) + [13, 10, 36, 51, 13, 10] + word + [13, 10] + SerializeAll(args);
            Encodes(request + rest, Array([BulkString(word, false)] + args), |request|)
  {
    hide Encodes, Canonical;
    var v := Array([BulkString(word, false)] + args);
    CommandPrints(word, args);
    assert Canonical(v) by { OneMoreCanonical(BulkString(word, false), args); }
    PrintedIsEncoding(v, rest);
  }

  lemma OneMoreCanonical(v: Object, args: seq<Object>)
    requires Canonical(v) && AllCanonical(args) && |args| < INT_MAX
    ensures Canonical(Array([v] + args))
  {
    assert AllCanonical([v] + args);
  }

  lemma CommandPrints(word: Bytes, args: seq<Object>)
    requires |word| == 3
    ensures Serialize(Array([BulkString(word, false)] + args))
         == [42] + Decimal(|args| + 1) + [13, 10, 36, 51, 13, 10] + word + [13, 10] + SerializeAll(args)
  {
    hide Decimal, Serialize, SerializeAll;
    var items := [BulkString(word, false)] + args;
    var head: Bytes := [36, 51, 13, 10] + word + [13, 10];
    WordPrints(word);
    FirstPrints(BulkString(word, false), args);
    ArrayPrints(items);
    assert [13 as byte, 10] + [36, 51, 13, 10] == [13, 10, 36, 51, 13, 10];
    Regrouped([42] + Decimal(|args| + 1), [13, 10], [36, 51, 13, 10], word, [13, 10], SerializeAll(args));
  }

  lemma Regrouped(a: Bytes, b: Bytes, c: Bytes, d: Bytes, e: Bytes, f: Bytes)
    ensures a + b + (c + d + e + f) == a + (b + c) + d + e + f
  {
  }

  lemma WordPrints(word: Bytes)
    requires |word| == 3
    ensures Serialize(BulkString(word, false)) == [36, 51, 13, 10] + word + [13, 10]
  {
    SmallNumbers();
  }

  lemma FirstPrints(v: Object, vs: seq<Object>)
    ensures SerializeAll([v] + vs) == Serialize(v) + SerializeAll(vs)
  {
    assert ([v] + vs)[1..] == vs;
  }

  lemma ArrayPrints(items: seq<Object>)
    ensures Serialize(Array(items)) == [42] + Decimal(|items|) + [13, 10] + SerializeAll(items)
  {
  }

  lemma SmallNumbers()
    ensures Decimal(1) == [49] && Decimal(2) == [50] && Decimal(3) == [51]
  {
  }

  lemma OneKey(key: Bytes)
    ensures SerializeAll([BulkString(key, false)]) == PrintedKey(key)
  {
    hide Decimal;
    var vs := [BulkString(key, false)];
    assert vs[1..] == [];
  }

  /** "*2", "$3", "get" and the key, each on its lines, is the GET of that key. */
  lemma GetInBytes(key: Bytes, rest: Bytes)
    requires Sendable(key)
    ensures var request := [42, 50, 13, 10, 36, 51, 13, 10, 103, 101, 116, 13, 10] + PrintedKey(key);
            var command := Array([BulkString([103, 101, 116], false), BulkString(key, false)]);
            Encodes(request + rest, command, |request|) && IsGet(command) && KeyOf(command) == key
  {
    hide Encodes, PrintedKey;
    var args := [BulkString(key, false)];
    SmallNumbers();
    OneKey(key);
    assert Sendable([103, 101, 116]);
    CommandInBytes([103, 101, 116], args, rest);
    assert [42] + [50] + [13, 10, 36, 51, 13, 10] + [103, 101, 116] + [13, 10] + PrintedKey(key)
        == [42, 50, 13, 10, 36, 51, 13, 10, 103, 101, 116, 13, 10] + PrintedKey(key);
    assert [BulkString([103, 101, 116], false)] + args
        == [BulkString([103, 101, 116], false), BulkString(key, false)];
  }

  /** "*3", "$3", "set", the key and the printed value is the SET of that key to it. */
  lemma SetInBytes(key: Bytes, value: Object, rest: Bytes)
    requires Sendable(key) && Canonical(value)
    ensures var request := [42, 51, 13, 10, 36, 51, 13, 10, 115, 101, 116, 13, 10]
                           + PrintedKey(key) + Serialize(value);
            var command := Array([BulkString([115, 101, 116], false), BulkString(key, false), value]);
            && Encodes(request + rest, command, |request|)
            && IsSet(command) && KeyOf(command) == key && command.items[2] == value
  {
    hide Encodes, PrintedKey, Serialize, Canonical;
    var args := [BulkString(key, false), value];
    SmallNumbers();
    OneKey(key);
    assert Sendable([115, 101, 116]) by { WordsAreSendable(); }
    CommandInBytes([115, 101, 116], args, rest);
    assert SerializeAll(args) == PrintedKey(key) + Serialize(value) by {
      SerializeAllAppend([BulkString(key, false)], value);
      assert [BulkString(key, false)] + [value] == args;
    }
    assert [42] + [51] + [13, 10, 36, 51, 13, 10] + [115, 101, 116] + [13, 10]
           + (PrintedKey(key) + Serialize(value))
        == [42, 51, 13, 10, 36, 51, 13, 10, 115, 101, 116, 13, 10] + PrintedKey(key) + Serialize(value);
    assert [BulkString([115, 101, 116], false)] + args
        == [BulkString([115, 101, 116], false), BulkString(key, false), value];
  }

  lemma WordsAreSendable()
    ensures Sendable([115, 101, 116]) && Sendable([100, 101, 108])
  {
  }

  /** The number of elements, "$3", "del" and the keys is the DEL of these keys. */
  lemma DelInBytes(keys: seq<Bytes>, rest: Bytes)
    requires 0 < |keys| < INT_MAX && forall i | 0 <= i < |keys| :: Sendable(keys[i])
    ensures var request := [42] + Decimal(|keys| + 1) + [13, 10, 36, 51, 13, 10] + [100, 101, 108] + [13, 10]
                           + PrintedKeys(keys);
            var command := Array([BulkString([100, 101, 108], false)] + Bulks(keys));
            Encodes(request + rest, command, |request|) && IsDel(command) && DoomedBy(command) == SetOf(keys)
  {
    hide Encodes, PrintedKeys, Canonical;
    WordsAreSendable();
    PrintedBulks(keys);
    assert AllCanonical(Bulks(keys));
    CommandInBytes([100, 101, 108], Bulks(keys), rest);
    var command := Array([BulkString([100, 101, 108], false)] + Bulks(keys));
    forall i | 0 <= i < |keys|
      ensures ToText(command.items[i + 1]) == keys[i]
    {
      assert command.items[i + 1] == BulkString(keys[i], false);
    }
    assert forall i | 1 <= i < |command.items| :: ToText(command.items[i]) == keys[i - 1];
    assert command.items[1] == BulkString(keys[0], false);
  }
}

/** A client: it reads a reply off the wire as RESP2 says, from the bytes alone. What
    the server prints is what it reads. */
module ReplyReader {
  import opened ByteStrings
  import opened RespObject
  import opened RespGrammar

  datatype Read = Read(value: Object, used: nat)

  /** Where the first CR LF begins, or the length if there is none. */
  function LineLength(s: Bytes): (k: nat)
    ensures k <= |s|
    ensures k == |s| || EndsLine(s, k)
    ensures forall i | 0 <= i < k :: !EndsLine(s, i)
  {
    if s == [] then 0
    else if EndsLine(s, 0) then 0
    else
      var k := 1 + LineLength(s[1..]);
      assert forall i | 1 <= i <= |s| :: EndsLine(s, i) <==> EndsLine(s[1..], i - 1);
      k
  }

  /** Plain figures, none to spare. */
  function ReadFigures(t: Bytes): Option<nat> {
    if t == [] || !AllFigures(t) || (t[0] == 48 && |t| > 1) then None else Some(Positional(t))
  }

  function ReadNumber(t: Bytes): Option<int> {
    if t != [] && t[0] == 45 then
      match ReadFigures(t[1..])
      case Some(n) => if n > 0 then Some(-(n as int)) else None
      case None => None
    else
      match ReadFigures(t)
      case Some(n) => Some(n)
      case None => None
  }

  function ReadReply(s: Bytes): (r: Option<Read>)
    ensures r.Some? ==> 3 <= r.value.used <= |s|
    decreases |s|, 0
  {
    if s == [] then None else
      var k := LineLength(s[1..]);
      if k == |s| - 1 then None else
        var line, rest := s[1..1 + k], s[k + 3..];
        if s[0] == 43 then Some(Read(SimpleString(line), k + 3))
        else if s[0] == 45 then Some(Read(ErrorString(line), k + 3))
        else if s[0] == 58 then
          match ReadNumber(line)
          case Some(n) => Some(Read(Integer(n), k + 3))
          case None => None
        else if s[0] == 36 then
          if line == [45, 49] then Some(Read(BulkString([], true), k + 3)) else
            match ReadFigures(line)
            case Some(n) =>
              if EndsLine(rest, n) then Some(Read(BulkString(rest[..n], false), k + 3 + n + 2)) else None
            case None => None
        else if s[0] == 42 then
          match ReadFigures(line)
          case Some(n) =>
            (match ReadMany(rest, n)
             case Some(many) => Some(Read(Array(many.0), k + 3 + many.1))
             case None => None)
          case None => None
        else None
  }

  function ReadMany(s: Bytes, count: nat): (r: Option<(seq<Object>, nat)>)
    ensures r.Some? ==> r.value.1 <= |s| && |r.value.0| == count
    decreases |s|, 1
  {
    if count == 0 then Some(([], 0)) else
      match ReadReply(s)
      case None => None
      case Some(first) =>
        match ReadMany(s[first.used..], count - 1)
        case None => None
        case Some(others) => Some(([first.value] + others.0, first.used + others.1))
  }

  // ---- what can be read back ----

  predicate OneLine(t: Bytes) {
    forall i | 0 <= i < |t| :: !EndsLine(t, i)
  }

  predicate Readable(v: Object)
    decreases v, 1
  {
    match v
    case BulkString(value, isNull) => isNull ==> value == []
    case Array(items) => AllReadable(items)
    case Integer(_) => true
    case SimpleString(value) => OneLine(value)
    case ErrorString(value) => OneLine(value)
  }

  predicate AllReadable(vs: seq<Object>)
    decreases vs, 0
  {
    forall i | 0 <= i < |vs| :: Readable(vs[i])
  }

  lemma LineOf(t: Bytes, rest: Bytes)
    ensures LineLength(t + [13, 10] + rest) <= |t|
    ensures LineLength(t + [13, 10] + rest) == |t| <==> OneLine(t)
  {
    var s := t + [13, 10] + rest;
    assert EndsLine(s, |t|);
    assert forall i | 0 <= i < |t| - 1 :: EndsLine(s, i) <==> EndsLine(t, i);
    assert |t| > 0 ==> !EndsLine(s, |t| - 1) && !EndsLine(t, |t| - 1);
    if !OneLine(t) {
      var i :| 0 <= i < |t| && EndsLine(t, i);
      assert EndsLine(s, i);
    }
  }

  lemma FiguresAreOneLine(n: nat)
    ensures OneLine(Decimal(n)) && ReadFigures(Decimal(n)) == Some(n)
    ensures Decimal(n)[0] != 45
  {
    DecimalIsPlain(n);
    var d := Decimal(n);
    assert forall i | 0 <= i < |d| :: IsFigure(d[i]);
  }

  lemma NumberIsRead(n: int)
    ensures OneLine(SignedDecimal(n)) && ReadNumber(SignedDecimal(n)) == Some(n)
  {
    if n < 0 {
      FiguresAreOneLine(-n);
      assert SignedDecimal(n)[1..] == Decimal(-n);
      var t := SignedDecimal(n);
      forall i | 0 <= i < |t|
        ensures !EndsLine(t, i)
      {
        assert i > 0 ==> EndsLine(t, i) == EndsLine(Decimal(-n), i - 1);
      }
    } else {
      FiguresAreOneLine(n);
    }
  }

  // ---- reading undoes printing ----

  /** A reply that starts with a line: the reader finds the line, and what follows. */
  lemma FirstLine(tag: byte, t: Bytes, rest: Bytes)
    requires OneLine(t)
    ensures var s := [tag] + t + [13, 10] + rest;
            && LineLength(s[1..]) == |t| && s[1..1 + |t|] == t && s[|t| + 3..] == rest
  {
    var s := [tag] + t + [13, 10] + rest;
    assert s[1..] == t + [13, 10] + rest;
    LineOf(t, rest);
  }

  /** Of a line with an end inside, only a part is read. */
  lemma BrokenLine(tag: byte, t: Bytes, rest: Bytes)
    requires !OneLine(t)
    ensures var s := [tag] + t + [13, 10] + rest; LineLength(s[1..]) < |t|
  {
    var s := [tag] + t + [13, 10] + rest;
    assert s[1..] == t + [13, 10] + rest;
    LineOf(t, rest);
  }

  /** What is read of an integer, a simple string or an error. */
  lemma LinesAreRead(v: Object, rest: Bytes)
    requires v.Integer? || v.SimpleString? || v.ErrorString?
    ensures var r := ReadReply(Serialize(v) + rest);
            if Readable(v) then r == Some(Read(v, |Serialize(v)|)) else r.Some? && r.value.value != v
  {
    var tag: byte := if v.Integer? then 58 else if v.SimpleString? then 43 else 45;
    var t := if v.Integer? then SignedDecimal(v.number) else v.value;
    var s := [tag] + t + [13, 10] + rest;
    assert Serialize(v) + rest == s && |Serialize(v)| == |t| + 3;
    if v.Integer? {
      NumberIsRead(v.number);
    }
    if OneLine(t) {
      FirstLine(tag, t, rest);
    } else {
      BrokenLine(tag, t, rest);
    }
  }

  lemma SizedLine(tag: byte, n: nat, rest: Bytes)
    ensures var s := [tag] + Decimal(n) + [13, 10] + rest;
            var k := |Decimal(n)|;
            && LineLength(s[1..]) == k && s[1..1 + k] == Decimal(n) && s[k + 3..] == rest
            && ReadFigures(s[1..1 + k]) == Some(n) && s[1..1 + k] != [45, 49]
  {
    FiguresAreOneLine(n);
    FirstLine(tag, Decimal(n), rest);
  }

  lemma BulksAreRead(v: Object, rest: Bytes)
    requires v.BulkString?
    ensures var r := ReadReply(Serialize(v) + rest);
            r.Some? && r.value.used == |Serialize(v)| && (Readable(v) <==> r.value.value == v)
  {
    hide Decimal, LineLength, ReadFigures;
    if v.isNull {
      var t: Bytes := [45, 49];
      FirstLine(36, t, rest);
      assert Serialize(v) + rest == [36] + t + [13, 10] + rest;
    } else {
      var n := |v.value|;
      var body := v.value + [13, 10] + rest;
      SizedLine(36, n, body);
      assert Serialize(v) + rest == [36] + Decimal(n) + [13, 10] + body;
      assert body[..n] == v.value && EndsLine(body, n);
    }
  }

  lemma ArraysAreRead(items: seq<Object>, rest: Bytes)
    ensures var many := ReadMany(SerializeAll(items) + rest, |items|);
            var v := Array(items);
            ReadReply(Serialize(v) + rest)
            == match many
               case Some(m) => Some(Read(Array(m.0), |Serialize(v)| - |SerializeAll(items)| + m.1))
               case None => None
  {
    hide Decimal, LineLength, ReadFigures, ReadMany, SerializeAll;
    var n := |items|;
    var body := SerializeAll(items) + rest;
    SizedLine(42, n, body);
    assert Serialize(Array(items)) + rest == [42] + Decimal(n) + [13, 10] + body;
  }

  /** For every value and every continuation: the reader gets the value back, and has
      read exactly its printed form, if and only if no line in it has an end inside. */
  lemma {:induction false} ReadsBackExactly(v: Object, rest: Bytes)
    ensures var r := ReadReply(Serialize(v) + rest);
            && (Readable(v) ==> r == Some(Read(v, |Serialize(v)|)))
            && (r.Some? && r.value.value == v ==> Readable(v))
    decreases v, 1
  {
    match v
    case Array(items) =>
      hide ReadReply, Serialize, ReadMany, SerializeAll, AllReadable;
      ArraysAreRead(items, rest);
      ManyReadBackExactly(items, rest);
    case BulkString(_, _) =>
      hide ReadReply, Serialize;
      BulksAreRead(v, rest);
    case _ =>
      hide ReadReply, Serialize;
      LinesAreRead(v, rest);
  }

  lemma {:induction false} ManyReadBackExactly(vs: seq<Object>, rest: Bytes)
    ensures var r := ReadMany(SerializeAll(vs) + rest, |vs|);
            && (AllReadable(vs) ==> r == Some((vs, |SerializeAll(vs)|)))
            && (r.Some? && r.value.0 == vs ==> AllReadable(vs))
    decreases vs, 0
  {
    hide ReadReply, Serialize, Readable, AllReadable;
    if vs != [] {
      var head, others := vs[0], vs[1..];
      var tail := SerializeAll(others) + rest;
      assert SerializeAll(vs) + rest == Serialize(head) + tail;
      ReadsBackExactly(head, tail);
      ManyReadBackExactly(others, rest);
      AllReadableSplit(vs);
      assert vs == [head] + others;
      if Readable(head) {
        assert (Serialize(head) + tail)[|Serialize(head)|..] == tail;
      }
    } else {
      assert AllReadable([]) by { NothingToRead(); }
    }
  }

  lemma NothingToRead()
    ensures AllReadable([])
  {
  }

  lemma AllReadableSplit(vs: seq<Object>)
    requires vs != []
    ensures AllReadable(vs) <==> Readable(vs[0]) && AllReadable(vs[1..])
  {
    hide Readable;
    assert forall i | 0 <= i < |vs| - 1 :: vs[1..][i] == vs[i + 1];
    assert forall i | 1 <= i < |vs| :: vs[i] == vs[1..][i - 1];
  }
}

/** RESP values (src/resp_parser.h): what each one prints as, for people and on
    the wire, and which values the wire format can carry. */
module RespObject {
  import opened ByteStrings

  const INT_MAX := 0x7FFF_FFFF

  const STRING_TAG: byte := 43   // '+'
  const ERROR_TAG: byte := 45    // '-'
  const INTEGER_TAG: byte := 58  // ':'
  const BULK_TAG: byte := 36     // '$'
  const ARRAY_TAG: byte := 42    // '*'
  const MINUS: byte := 45        // '-'
  const DIGIT_ZERO: byte := 48   // '0'

  const NIL_TEXT: Bytes := [110, 105, 108]  // "nil"
  const SEPARATOR: Bytes := [44, 32]        // ", "
  const OPEN_BRACKET: byte := 91
  const CLOSE_BRACKET: byte := 93

  datatype Object =
    | BulkString(value: Bytes, isNull: bool)
    | Array(items: seq<Object>)
    | Integer(number: int)
    | SimpleString(value: Bytes)
    | ErrorString(value: Bytes)
  {
    predicate IsAggregate() { Array? }
  }

  const NULL_BULK := BulkString([], true)

  /** Decimal digits of a natural number, as an output stream prints it. */
  function Decimal(n: nat): (d: Bytes)
    ensures |d| >= 1
    ensures NulFree(d)
  {
    if n < 10 then [DIGIT_ZERO + n] else Decimal(n / 10) + [DIGIT_ZERO + n % 10]
  }

  function SignedDecimal(n: int): (d: Bytes)
    ensures NulFree(d)
  {
    if n < 0 then [MINUS] + Decimal(-n) else Decimal(n)
  }

  function Serialize(v: Object): Bytes
    decreases v, 1
  {
    match v
    case BulkString(value, isNull) =>
      if isNull then [BULK_TAG, MINUS, DIGIT_ZERO + 1] + CRLF
      else [BULK_TAG] + Decimal(|value|) + CRLF + value + CRLF
    case Array(items) => [ARRAY_TAG] + Decimal(|items|) + CRLF + SerializeAll(items)
    case Integer(n) => [INTEGER_TAG] + SignedDecimal(n) + CRLF
    case SimpleString(value) => [STRING_TAG] + value + CRLF
    case ErrorString(value) => [ERROR_TAG] + value + CRLF
  }

  function SerializeAll(vs: seq<Object>): Bytes
    decreases vs, 0
  {
    if vs == [] then [] else Serialize(vs[0]) + SerializeAll(vs[1..])
  }

  function ToText(v: Object): Bytes
    decreases v, 1
  {
    match v
    case BulkString(value, isNull) => if isNull then NIL_TEXT else value
    case Array(items) => [OPEN_BRACKET] + JoinTexts(items) + [CLOSE_BRACKET]
    case Integer(n) => SignedDecimal(n)
    case SimpleString(value) => value
    case ErrorString(value) => value
  }

  function JoinTexts(vs: seq<Object>): Bytes
    decreases vs, 0
  {
    if vs == [] then []
    else if |vs| == 1 then ToText(vs[0])
    else JoinTexts(vs[..|vs| - 1]) + SEPARATOR + ToText(vs[|vs| - 1])
  }

  /** The values the wire format carries faithfully: null bulk strings, bulk
      strings without CR, LF or NUL, and arrays of such values, with every size
      inside a C int. */
  predicate Canonical(v: Object)
    decreases v, 1
  {
    match v
    case BulkString(value, isNull) =>
      |value| <= INT_MAX && NulFree(value) && CrLfFree(value) && (isNull ==> value == [])
    case Array(items) => |items| <= INT_MAX && AllCanonical(items)
    case _ => false
  }

  predicate AllCanonical(vs: seq<Object>)
    decreases vs, 0
  {
    forall i | 0 <= i < |vs| :: Canonical(vs[i])
  }

  lemma {:induction false} SerializeAllAppend(vs: seq<Object>, v: Object)
    ensures SerializeAll(vs + [v]) == SerializeAll(vs) + Serialize(v)
  {
    if vs == [] {
      assert vs + [v] == [v];
      assert SerializeAll([v]) == Serialize(v) + SerializeAll([v][1..]);
    } else {
      SerializeAllAppend(vs[1..], v);
      assert (vs + [v])[1..] == vs[1..] + [v];
    }
  }

  /** Serialization as the source runs it: a stream filled by a loop over the
      elements of an array. */
  method SerializeToStream(v: Object) returns (stream: Bytes)
    ensures stream == Serialize(v)
    decreases v
  {
    match v
    case Array(items) =>
      stream := [ARRAY_TAG] + Decimal(|items|) + CRLF;
      ghost var header := stream;
      for i := 0 to |items|
        invariant stream == header + SerializeAll(items[..i])
      {
        var element := SerializeToStream(items[i]);
        SerializeAllAppend(items[..i], items[i]);
        assert items[..i + 1] == items[..i] + [items[i]];
        stream := stream + element;
      }
      assert items[..|items|] == items;
    case _ => stream := Serialize(v);
  }

  /** The human-readable form as the source builds it: a separator is put before
      every element but the first. */
  method ToTextByLoop(v: Object) returns (text: Bytes)
    ensures text == ToText(v)
    decreases v
  {
    match v
    case Array(items) =>
      text := [OPEN_BRACKET];
      var firstItem := true;
      for i := 0 to |items|
        invariant firstItem == (i == 0)
        invariant text == [OPEN_BRACKET] + JoinTexts(items[..i])
      {
        if !firstItem {
          text := text + SEPARATOR;
        }
        firstItem := false;
        var element := ToTextByLoop(items[i]);
        text := text + element;
        assert items[..i + 1][..i] == items[..i];
      }
      text := text + [CLOSE_BRACKET];
      assert items[..|items|] == items;
    case _ => text := ToText(v);
  }

  lemma {:induction false} SerializeIsNulFree(v: Object)
    requires Canonical(v)
    ensures NulFree(Serialize(v))
    decreases v, 1
  {
    if v.Array? {
      SerializeAllIsNulFree(v.items);
    }
  }

  lemma {:induction false} SerializeAllIsNulFree(vs: seq<Object>)
    requires AllCanonical(vs)
    ensures NulFree(SerializeAll(vs))
    decreases vs, 0
  {
    if vs != [] {
      SerializeIsNulFree(vs[0]);
      SerializeAllIsNulFree(vs[1..]);
    }
  }

  /** Keys are printed values, so no key taken from a parsed command has a NUL
      and the C string copy of a key keeps all of it. */
  lemma {:induction false} ToTextIsNulFree(v: Object)
    requires Canonical(v)
    ensures NulFree(ToText(v))
    decreases v, 1
  {
    if v.Array? {
      JoinTextsIsNulFree(v.items);
    }
  }

  lemma {:induction false} JoinTextsIsNulFree(vs: seq<Object>)
    requires AllCanonical(vs)
    ensures NulFree(JoinTexts(vs))
    decreases vs, 0
  {
    if |vs| == 1 {
      ToTextIsNulFree(vs[0]);
    } else if |vs| > 1 {
      JoinTextsIsNulFree(vs[..|vs| - 1]);
      ToTextIsNulFree(vs[|vs| - 1]);
    }
  }
}

/** The laws of the codec: printing and parsing undo each other, with anything
    at all following; what the parser delivers is always printable; and a parse
    depends on nothing behind the bytes it consumed. */
module RespLaws {
  import opened ByteStrings
  import opened RespObject
  import opened RespSyntax

  // ---- numbers ----

  lemma {:induction false} DigitsOfDecimal(n: nat)
    ensures AllDigits(Decimal(n))
    ensures DigitsValue(Decimal(n)) == n
  {
    if n >= 10 {
      DigitsOfDecimal(n / 10);
      var d := Decimal(n);
      assert d[..|d| - 1] == Decimal(n / 10);
    } else {
      assert Decimal(n)[..0] == [];
    }
  }

  /** `s` begins with `w` spaces, a sign when `g == 1`, then exactly `d` digits
      and a byte that is not a digit. */
  predicate NumberShape(s: Bytes, w: nat, g: nat, d: nat) {
    && d >= 1 && w + g + d < |s|
    && (forall i | 0 <= i < w :: IsSpace(s[i]))
    && !IsSpace(s[w])
    && g == (if IsSign(s[w]) then 1 else 0)
    && AllDigits(s[w + g..][..d])
    && !IsDigit(s[w + g + d])
  }

  /** The shape of the text settles what `StrToL` reads. */
  lemma StrToLByShape(s: Bytes, w: nat, g: nat, d: nat)
    requires NumberShape(s, w, g, d)
    ensures var m: int := DigitsValue(s[w + g..][..d]);
            StrToL(s) == (Saturate(if g == 1 && s[w] == MINUS then -m else m), w + g + d)
  {
    var digits := s[w + g..];
    forall i | 0 <= i < d
      ensures IsDigit(digits[i])
    {
      assert IsDigit(digits[..d][i]);
    }
    SpanIsUnique(s, IsSpace, w);
    SpanIsUnique(digits, IsDigit, d);
  }

  lemma ShapeOfNumber(s: Bytes) returns (w: nat, g: nat, d: nat)
    requires 0 < StrToL(s).1 < |s|
    ensures NumberShape(s, w, g, d) && StrToL(s).1 == w + g + d
  {
    hide DigitsValue;
    w := Span(s, IsSpace);
    g := if w < |s| && IsSign(s[w]) then 1 else 0;
    d := Span(s[w + g..], IsDigit);
    assert !IsDigit(s[w + g..][d]);
  }

  lemma ShapeIsLocal(s: Bytes, u: Bytes, w: nat, g: nat, d: nat)
    requires NumberShape(s, w, g, d)
    requires w + g + d < |u| && s[..w + g + d + 1] == u[..w + g + d + 1]
    ensures NumberShape(u, w, g, d)
    ensures u[w + g..][..d] == s[w + g..][..d]
  {
    SameByteAt(s, u, w + g + d);
    assert u[w + g..][..d] == s[w + g..][..d];
  }

  /** Reading back a printed number stops at the CRLF and gives the number, first
      cut off at the largest long and then wrapped to an int. */
  lemma GetLengthOfDecimal(n: nat, rest: Bytes)
    ensures GetLength(Decimal(n) + CRLF + rest) == Scan(SUCCESS, ToInt32(Saturate(n)), |Decimal(n)|)
  {
    var d := Decimal(n);
    var s := d + CRLF + rest;
    DigitsOfDecimal(n);
    assert IsDigit(d[0]) && s[0] == d[0] && s[|d|] == CR;
    assert s[0..][..|d|] == d;
    StrToLByShape(s, 0, 0, |d|);
  }

  /** So a size is read back as it was printed exactly when it is an int. */
  lemma SizeSurvives(n: nat)
    ensures ToInt32(Saturate(n)) == n <==> n <= INT_MAX
  {
  }

  lemma GetLengthOfNull(rest: Bytes)
    ensures GetLength([MINUS, DIGIT_ZERO + 1] + CRLF + rest) == Scan(SUCCESS, -1, 2)
  {
    var s := [MINUS, DIGIT_ZERO + 1] + CRLF + rest;
    assert s[1..][..1] == Decimal(1);
    DigitsOfDecimal(1);
    StrToLByShape(s, 0, 1, 1);
  }

  lemma StrToLIsLocal(s: Bytes, u: Bytes)
    requires 0 < StrToL(s).1 < |s| && StrToL(s).1 < |u|
    requires s[..StrToL(s).1 + 1] == u[..StrToL(s).1 + 1]
    ensures StrToL(u) == StrToL(s)
  {
    hide StrToL, NumberShape, DigitsValue;
    var w, g, d := ShapeOfNumber(s);
    ShapeIsLocal(s, u, w, g, d);
    SameByteAt(s, u, w + g + d);
    StrToLByShape(s, w, g, d);
    StrToLByShape(u, w, g, d);
  }

  lemma SameByteAt(s: Bytes, u: Bytes, k: nat)
    requires k < |s| && k < |u| && s[..k + 1] == u[..k + 1]
    ensures forall i | 0 <= i <= k :: s[i] == u[i]
  {
  }

  /** A length depends only on its own text and the byte that ends it. */
  lemma GetLengthIsLocal(s: Bytes, u: Bytes)
    requires GetLength(s).err == SUCCESS
    requires GetLength(s).used < |s| && GetLength(s).used < |u|
    requires s[..GetLength(s).used + 1] == u[..GetLength(s).used + 1]
    ensures GetLength(u) == GetLength(s)
  {
    hide StrToL;
    SameByteAt(s, u, GetLength(s).used);
    StrToLIsLocal(s, u);
  }

  // ---- round trip ----

  lemma SkipPrefix(a: Bytes, b: Bytes)
    ensures (a + b)[|a|..] == b
  {
  }

  lemma BulkBodyOfText(value: Bytes, rest: Bytes)
    requires CrLfFree(value) && NulFree(value)
    ensures BulkBody(value + CRLF + rest, |value|) == Scan(SUCCESS, value, |value| + 2)
  {
    var s := value + CRLF + rest;
    forall i | 0 <= i < |value|
      ensures IsNotCrOrLf(s[i])
    {
      assert IsNotCrOrLf(value[i]);
    }
    assert !IsNotCrOrLf(s[|value|]);
    SpanIsUnique(s, IsNotCrOrLf, |value|);
    assert s[..|value|] == value;
    assert s[|value|..] == CRLF + rest;
  }

  lemma Regroup(tag: Bytes, size: Bytes, crlf: Bytes, text: Bytes, rest: Bytes)
    ensures tag + size + crlf + text + rest == tag + (size + crlf + (text + rest))
    ensures tag + size + crlf + text + crlf + rest == tag + (size + crlf + (text + crlf + rest))
  {
  }

  lemma DispatchOnTag(body: Bytes)
    ensures var r := GetBulkString(body);
            GetObject([BULK_TAG] + body) == Scan(r.err, r.value, 1 + r.used)
    ensures var r := GetArray(body);
            GetObject([ARRAY_TAG] + body) == Scan(r.err, r.value, 1 + r.used)
  {
    hide GetBulkString, GetArray;
    SkipPrefix([BULK_TAG], body);
    SkipPrefix([ARRAY_TAG], body);
  }

  lemma RoundTripNull(rest: Bytes)
    ensures Accepts(Serialize(NULL_BULK) + rest, NULL_BULK, |Serialize(NULL_BULK)|)
  {
    hide StrToL, GetLength;
    var s := [MINUS, DIGIT_ZERO + 1] + CRLF + rest;
    GetLengthOfNull(rest);
    assert s[2..] == CRLF + rest;
    assert GetBulkString(s) == Scan(SUCCESS, Some(NULL_BULK), 4);
    DispatchOnTag(s);
    assert Serialize(NULL_BULK) + rest == [BULK_TAG] + s;
  }

  lemma GetBulkOfText(value: Bytes, rest: Bytes)
    requires Canonical(BulkString(value, false))
    ensures GetBulkInternal(Decimal(|value|) + CRLF + (value + CRLF + rest))
         == Scan(SUCCESS, (value, |value|), |Decimal(|value|)| + |value| + 4)
  {
    hide StrToL, GetLength, BulkBody, CrLfFree, NulFree;
    var d := Decimal(|value|);
    var body := value + CRLF + rest;
    var s := d + CRLF + body;
    GetLengthOfDecimal(|value|, body);
    assert s[|d|..] == CRLF + body;
    assert s[|d| + 2..] == body;
    BulkBodyOfText(value, rest);
    if value == [] {
      assert body == CRLF + rest;
    }
  }

  lemma RoundTripText(value: Bytes, rest: Bytes)
    requires Canonical(BulkString(value, false))
    ensures var v := BulkString(value, false);
            Accepts(Serialize(v) + rest, v, |Serialize(v)|)
  {
    hide GetBulkInternal, GetObject, Decimal, Canonical;
    var s := Decimal(|value|) + CRLF + (value + CRLF + rest);
    GetBulkOfText(value, rest);
    DispatchOnTag(s);
    Regroup([BULK_TAG], Decimal(|value|), CRLF, value, rest);
  }

  lemma GetArrayOfItems(items: seq<Object>, rest: Bytes)
    requires |items| <= INT_MAX
    requires GetItems(SerializeAll(items) + rest, |items|, [])
          == Scan(SUCCESS, Some(Array([] + items)), |SerializeAll(items)|)
    ensures GetArray(Decimal(|items|) + CRLF + (SerializeAll(items) + rest))
         == Scan(SUCCESS, Some(Array(items)), |Decimal(|items|)| + 2 + |SerializeAll(items)|)
  {
    hide StrToL, GetLength, GetItems, SerializeAll, Decimal;
    var d := Decimal(|items|);
    var body := SerializeAll(items) + rest;
    var s := d + CRLF + body;
    GetLengthOfDecimal(|items|, body);
    assert s[|d|..] == CRLF + body;
    assert s[|d| + 2..] == body;
    assert [] + items == items;
  }

  lemma RoundTripArray(items: seq<Object>, rest: Bytes)
    requires |items| <= INT_MAX
    requires GetItems(SerializeAll(items) + rest, |items|, [])
          == Scan(SUCCESS, Some(Array([] + items)), |SerializeAll(items)|)
    ensures var v := Array(items);
            Accepts(Serialize(v) + rest, v, |Serialize(v)|)
  {
    hide GetArray, GetObject, Decimal;
    var s := Decimal(|items|) + CRLF + (SerializeAll(items) + rest);
    GetArrayOfItems(items, rest);
    DispatchOnTag(s);
    Regroup([ARRAY_TAG], Decimal(|items|), CRLF, SerializeAll(items), rest);
  }

  /** Parsing a printed value gives the value back and stops exactly where it
      ends, whatever bytes follow. */
  lemma {:induction false} RoundTrip(v: Object, rest: Bytes)
    requires Canonical(v)
    ensures Accepts(Serialize(v) + rest, v, |Serialize(v)|)
    decreases v, 1
  {
    hide Accepts, Serialize;
    match v
    case BulkString(value, isNull) =>
      if isNull {
        RoundTripNull(rest);
      } else {
        RoundTripText(value, rest);
      }
    case Array(items) =>
      RoundTripItems(items, rest, []);
      RoundTripArray(items, rest);
  }

  lemma {:induction false} RoundTripItems(vs: seq<Object>, rest: Bytes, before: seq<Object>)
    requires AllCanonical(vs)
    ensures GetItems(SerializeAll(vs) + rest, |vs|, before)
         == Scan(SUCCESS, Some(Array(before + vs)), |SerializeAll(vs)|)
    decreases vs, 0
  {
    hide GetLength, GetObject, GetArray, GetBulkInternal, Serialize, Canonical;
    if vs == [] {
      assert before + vs == before;
    } else {
      var tail := SerializeAll(vs[1..]) + rest;
      assert SerializeAll(vs) + rest == Serialize(vs[0]) + tail;
      RoundTrip(vs[0], tail);
      SkipPrefix(Serialize(vs[0]), tail);
      RoundTripItems(vs[1..], rest, before + [vs[0]]);
      assert before + [vs[0]] + vs[1..] == before + vs;
    }
  }

  // ---- normalisation ----

  lemma BulkBodyIsCanonical(s: Bytes, length: nat)
    requires length <= INT_MAX && BulkBody(s, length).err == SUCCESS
    ensures Canonical(BulkString(BulkBody(s, length).value, false))
  {
  }

  /** Whatever input the parser accepts (odd signs, leading zeros or spaces,
      lengths that wrap around, embedded NULs), the value it delivers is one
      that the wire format carries faithfully. */
  lemma {:induction false} ParsedIsCanonical(s: Bytes)
    requires GetObject(s).err == SUCCESS
    ensures Canonical(GetObject(s).value.value)
    decreases |s|, 1
  {
    var after := s[1..];
    var length := GetLength(after);
    var crlf := SkipCrLf(after[length.used..]);
    var start := length.used + crlf.used;
    if GetType(s).value == BulkTag {
      if length.value > 0 {
        BulkBodyIsCanonical(after[start..], length.value);
      }
    } else if length.value >= 0 {
      ParsedItemsAreCanonical(after[start..], length.value, []);
    }
  }

  lemma {:induction false} ParsedItemsAreCanonical(s: Bytes, count: nat, items: seq<Object>)
    requires AllCanonical(items) && GetItems(s, count, items).err == SUCCESS
    ensures var v := GetItems(s, count, items).value.value;
            |v.items| == |items| + count && AllCanonical(v.items)
    decreases |s|, 2, count
  {
    hide StrToL, GetLength, SkipCrLf, GetBulkInternal;
    if count > 0 {
      ParsedIsCanonical(s);
      var item := GetObject(s);
      ParsedItemsAreCanonical(s[item.used..], count - 1, items + [item.value.value]);
    }
  }

  /** A value survives printing and parsing exactly when it is canonical. */
  lemma RoundTripExactly(v: Object)
    ensures Canonical(v) <==>
            GetObject(Serialize(v)).err == SUCCESS && GetObject(Serialize(v)).value == Some(v)
  {
    if Canonical(v) {
      RoundTrip(v, []);
      assert Serialize(v) + [] == Serialize(v);
    } else if GetObject(Serialize(v)).err == SUCCESS {
      ParsedIsCanonical(Serialize(v));
    }
  }

  /** Parsing, printing and parsing again gives the value of the first parse,
      and consumes the whole of the printed form. */
  lemma ReparseGivesSameValue(s: Bytes)
    requires GetObject(s).err == SUCCESS
    ensures var v := GetObject(s).value.value;
            Accepts(Serialize(v), v, |Serialize(v)|)
  {
    var v := GetObject(s).value.value;
    ParsedIsCanonical(s);
    RoundTrip(v, []);
    assert Serialize(v) + [] == Serialize(v);
  }

  // ---- locality ----

  lemma SameBytes(s: Bytes, u: Bytes, from: nat, to: nat)
    requires from <= to <= |s| && to <= |u|
    requires s[..to] == u[..to]
    ensures s[from..][..to - from] == u[from..][..to - from]
  {
    assert s[from..][..to - from] == s[..to][from..];
    assert u[from..][..to - from] == u[..to][from..];
  }

  lemma SkipCrLfIsLocal(s: Bytes, u: Bytes)
    requires SkipCrLf(s).err == SUCCESS
    requires 2 <= |u| && s[..2] == u[..2]
    ensures SkipCrLf(u) == SkipCrLf(s)
  {
  }

  lemma BulkBodyIsLocal(s: Bytes, u: Bytes, length: nat)
    requires BulkBody(s, length).err == SUCCESS
    requires length + 2 <= |u| && s[..length + 2] == u[..length + 2]
    ensures BulkBody(u, length) == BulkBody(s, length)
  {
    SameBytes(s, u, length, length + 2);
    assert s[length..][..2] == CRLF;
    SkipCrLfIsLocal(s[length..], u[length..]);
    forall i | 0 <= i < length + 2
      ensures u[i] == s[i]
    {
      assert u[..length + 2][i] == s[..length + 2][i];
    }
    assert s[length..][0] == CR;
    assert forall i | 0 <= i < length :: IsNotCrOrLf(s[i]);
    SpanIsUnique(u, IsNotCrOrLf, length);
    assert u[..length] == s[..length];
  }

  /** The header of a value: its length and the CRLF behind it. */
  lemma HeaderIsLocal(s: Bytes, u: Bytes)
    requires var length := GetLength(s);
             && length.err == SUCCESS
             && SkipCrLf(s[length.used..]).err == SUCCESS
             && length.used + 2 <= |u|
             && s[..length.used + 2] == u[..length.used + 2]
    ensures GetLength(u) == GetLength(s)
    ensures SkipCrLf(u[GetLength(s).used..]) == SkipCrLf(s[GetLength(s).used..])
  {
    var k := GetLength(s).used;
    assert s[..k + 1] == s[..k + 2][..k + 1];
    assert u[..k + 1] == u[..k + 2][..k + 1];
    GetLengthIsLocal(s, u);
    SameBytes(s, u, k, k + 2);
    SkipCrLfIsLocal(s[k..], u[k..]);
  }

  lemma GetBulkInternalIsLocal(s: Bytes, u: Bytes)
    requires GetBulkInternal(s).err == SUCCESS
    requires GetBulkInternal(s).used <= |u|
    requires s[..GetBulkInternal(s).used] == u[..GetBulkInternal(s).used]
    ensures GetBulkInternal(u) == GetBulkInternal(s)
  {
    hide StrToL, GetLength, SkipCrLf, BulkBody;
    var n := GetBulkInternal(s).used;
    var length := GetLength(s);
    var start := length.used + 2;
    SameBytes(s, u, 0, n);
    assert s[..start] == s[..n][..start];
    assert u[..start] == u[..n][..start];
    HeaderIsLocal(s, u);
    SameBytes(s, u, start, n);
    if length.value == 0 {
      SkipCrLfIsLocal(s[start..], u[start..]);
    } else if length.value > 0 {
      BulkBodyIsLocal(s[start..], u[start..], length.value);
    }
  }

  /** A successful parse looks at nothing behind the bytes it consumes. */
  lemma {:induction false} ParseIsLocal(s: Bytes, u: Bytes)
    requires GetObject(s).err == SUCCESS
    requires GetObject(s).used <= |u|
    requires s[..GetObject(s).used] == u[..GetObject(s).used]
    ensures GetObject(u) == GetObject(s)
    decreases |s|, 1
  {
    hide StrToL, GetLength, SkipCrLf, GetBulkInternal, GetItems;
    var n := GetObject(s).used;
    assert s[0] == s[..n][0] == u[..n][0] == u[0];
    SameBytes(s, u, 1, n);
    var after, after' := s[1..], u[1..];
    if GetType(s).value == BulkTag {
      GetBulkInternalIsLocal(after, after');
    } else {
      var length := GetLength(after);
      var start := length.used + 2;
      assert after[..start] == after[..n - 1][..start];
      assert after'[..start] == after'[..n - 1][..start];
      HeaderIsLocal(after, after');
      if length.value >= 0 {
        SameBytes(after, after', start, n - 1);
        ItemsAreLocal(after[start..], after'[start..], length.value, []);
      }
    }
  }

  lemma {:induction false} ItemsAreLocal(s: Bytes, u: Bytes, count: nat, items: seq<Object>)
    requires GetItems(s, count, items).err == SUCCESS
    requires GetItems(s, count, items).used <= |u|
    requires s[..GetItems(s, count, items).used] == u[..GetItems(s, count, items).used]
    ensures GetItems(u, count, items) == GetItems(s, count, items)
    decreases |s|, 2, count
  {
    hide StrToL, GetLength, SkipCrLf, GetBulkInternal;
    if count > 0 {
      var n := GetItems(s, count, items).used;
      var item := GetObject(s);
      assert s[..item.used] == s[..n][..item.used];
      assert u[..item.used] == u[..n][..item.used];
      ParseIsLocal(s, u);
      SameBytes(s, u, item.used, n);
      ItemsAreLocal(s[item.used..], u[item.used..], count - 1, items + [item.value.value]);
    }
  }

  /** No printed value is the beginning of another, and no two values print the
      same. */
  lemma SerializeIsPrefixFree(v: Object, w: Object)
    requires Canonical(v) && Canonical(w)
    requires Serialize(v) <= Serialize(w)
    ensures v == w
  {
    var rest := Serialize(w)[|Serialize(v)|..];
    assert Serialize(w) == Serialize(v) + rest;
    RoundTrip(v, rest);
    RoundTrip(w, []);
    assert Serialize(w) + [] == Serialize(w);
  }

  lemma PrefixOfPrefix(s: Bytes, k: nat, n: nat)
    requires n <= k <= |s|
    ensures s[..k][..n] == s[..n]
  {
  }

  /** A partial read never passes for a value: every strict prefix of a printed
      value is rejected. */
  lemma StrictPrefixIsRejected(v: Object, k: nat)
    requires Canonical(v) && k < |Serialize(v)|
    ensures GetObject(Serialize(v)[..k]).err != SUCCESS
  {
    var part := Serialize(v)[..k];
    RoundTrip(v, []);
    assert Serialize(v) + [] == Serialize(v);
    if GetObject(part).err == SUCCESS {
      ghost var n := GetObject(part).used;
      PrefixOfPrefix(Serialize(v), k, n);
      ParseIsLocal(part, Serialize(v));
      assert false;
    }
  }

  // ---- size ----

  function Nodes(v: Object): (n: nat)
    ensures n >= 1
    decreases v, 1
  {
    if v.Array? then 1 + NodesOfAll(v.items) else 1
  }

  function NodesOfAll(vs: seq<Object>): nat
    decreases vs, 0
  {
    if vs == [] then 0 else NodesOfAll(vs[..|vs| - 1]) + Nodes(vs[|vs| - 1])
  }

  /** Nesting depth: one for a scalar, one more than the deepest element. */
  function Depth(v: Object): (n: nat)
    ensures 1 <= n <= Nodes(v)
    decreases v, 1
  {
    if v.Array? then 1 + DepthOfAll(v.items) else 1
  }

  function DepthOfAll(vs: seq<Object>): (n: nat)
    ensures n <= NodesOfAll(vs)
    decreases vs, 0
  {
    if vs == [] then 0 else
      var before, last := DepthOfAll(vs[..|vs| - 1]), Depth(vs[|vs| - 1]);
      if before < last then last else before
  }

  /** Whatever sizes the input announces, a value costs four bytes a node, which
      also bounds how deep it nests. */
  lemma {:induction false} ParsedSizeIsBounded(s: Bytes)
    requires GetObject(s).err == SUCCESS
    ensures 4 * Nodes(GetObject(s).value.value) <= GetObject(s).used <= |s|
    ensures 4 * Depth(GetObject(s).value.value) <= |s|
    decreases |s|, 1
  {
    hide StrToL, GetLength, SkipCrLf, GetBulkInternal, GetItems;
    if GetType(s).value == ArrayTag {
      var after := s[1..];
      var length := GetLength(after);
      if length.value >= 0 {
        ParsedItemsAreBounded(after[length.used + 2..], length.value, []);
      }
    }
  }

  lemma {:induction false} ParsedItemsAreBounded(s: Bytes, count: nat, items: seq<Object>)
    requires GetItems(s, count, items).err == SUCCESS
    ensures 4 * NodesOfAll(GetItems(s, count, items).value.value.items)
         <= 4 * NodesOfAll(items) + GetItems(s, count, items).used
    decreases |s|, 2, count
  {
    hide GetLength, GetObject, GetArray, GetBulkInternal, Nodes, Depth;
    if count > 0 {
      var item := GetObject(s);
      var items' := items + [item.value.value];
      ParsedSizeIsBounded(s);
      assert items'[..|items|] == items;
      ParsedItemsAreBounded(s[item.used..], count - 1, items');
    }
  }
}

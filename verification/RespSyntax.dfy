/** What the parser (src/resp_parser.cpp) computes, as functions on the bytes
    that are left to read. Each result says how far the cursor moves, on errors
    too. Beyond the last byte lies the NUL that ends the underlying C string. */
module RespSyntax {
  import opened ByteStrings
  import opened RespObject

  datatype ParseError =
    | SUCCESS
    | CURRENT_BEYOND_END
    | INVALID_TYPE
    | INVALID_NUMBER
    | CRLF_MISSING
    | STRING_CONTAINS_CRLF
    | INVALID_ARRAY_LENGTH
    | NOT_IMPLEMENTED

  datatype Tag = InvalidTag | StringTag | ErrorTag | IntegerTag | BulkTag | ArrayTag

  /** An error code, the value delivered with it, and the bytes consumed. */
  datatype Scan<+T> = Scan(err: ParseError, value: T, used: nat)

  type Parsed = Scan<Option<Object>>

  // ---- strtol ----

  const LONG_MAX: int := 0x7FFF_FFFF_FFFF_FFFF
  const LONG_MIN: int := -0x8000_0000_0000_0000
  const TWO_TO_THE_31: int := 0x8000_0000
  const TWO_TO_THE_32: int := 0x1_0000_0000

  const PLUS: byte := 43

  predicate IsSpace(b: byte) { b == 32 || 9 <= b <= 13 }

  predicate IsDigit(b: byte) { DIGIT_ZERO <= b <= DIGIT_ZERO + 9 }

  predicate IsSign(b: byte) { b == PLUS || b == MINUS }

  predicate AllDigits(d: Bytes) {
    forall i | 0 <= i < |d| :: IsDigit(d[i])
  }

  function DigitsValue(d: Bytes): (n: nat)
    requires AllDigits(d)
  {
    if d == [] then 0
    else
      assert IsDigit(d[|d| - 1]);
      10 * DigitsValue(d[..|d| - 1]) + (d[|d| - 1] - DIGIT_ZERO)
  }

  function Saturate(n: int): int {
    if n > LONG_MAX then LONG_MAX else if n < LONG_MIN then LONG_MIN else n
  }

  /** The number at the front of `s` in base ten, and where it ends: white space,
      an optional sign, digits; nothing at all is read when there is no digit. */
  function StrToL(s: Bytes): (r: (int, nat))
    ensures r.1 <= |s|
    ensures r.1 == 0 ==> r.0 == 0
  {
    var spaces := Span(s, IsSpace);
    var sign := if spaces < |s| && IsSign(s[spaces]) then 1 else 0;
    var digits := Span(s[spaces + sign..], IsDigit);
    if digits == 0 then (0, 0) else
      var text := s[spaces + sign..][..digits];
      assert AllDigits(text);
      var magnitude := DigitsValue(text);
      var number: int := if sign == 1 && s[spaces] == MINUS then -(magnitude as int) else magnitude;
      (Saturate(number), spaces + sign + digits)
  }

  /** The conversion of a long to a 32-bit int, which wraps around. */
  function ToInt32(n: int): (r: int)
    ensures -TWO_TO_THE_31 <= r < TWO_TO_THE_31
    ensures -TWO_TO_THE_31 <= n < TWO_TO_THE_31 ==> r == n
    ensures (n - r) % TWO_TO_THE_32 == 0
  {
    (n + TWO_TO_THE_31) % TWO_TO_THE_32 - TWO_TO_THE_31
  }

  // ---- the cursor functions ----

  /** The byte at `i`, reading the terminating NUL past the end. */
  function CharAt(s: Bytes, i: nat): byte {
    if i < |s| then s[i] else NUL
  }

  function TagOf(b: byte): Tag {
    if b == STRING_TAG then StringTag
    else if b == ERROR_TAG then ErrorTag
    else if b == INTEGER_TAG then IntegerTag
    else if b == BULK_TAG then BulkTag
    else if b == ARRAY_TAG then ArrayTag
    else InvalidTag
  }

  function GetType(s: Bytes): (r: Scan<Tag>)
    ensures r.used <= |s|
    ensures r.err == SUCCESS <==> r.used == 1
    ensures r.err == SUCCESS <==> r.value != InvalidTag
  {
    if s == [] then Scan(CURRENT_BEYOND_END, InvalidTag, 0)
    else if TagOf(s[0]) == InvalidTag then Scan(INVALID_TYPE, InvalidTag, 0)
    else Scan(SUCCESS, TagOf(s[0]), 1)
  }

  function GetLength(s: Bytes): (r: Scan<int>)
    ensures r.used <= |s|
    ensures r.err == SUCCESS ==> r.used >= 1
    ensures -TWO_TO_THE_31 <= r.value <= INT_MAX
  {
    if s == [] then Scan(CURRENT_BEYOND_END, 0, 0) else
      var (number, end) := StrToL(s);
      if number == 0 && (end == 0 || (s[0] != NUL && CharAt(s, end) == NUL)) then
        Scan(INVALID_NUMBER, 0, 0)
      else
        Scan(SUCCESS, ToInt32(number), end)
  }

  function SkipCrLf(s: Bytes): (r: Scan<()>)
    ensures r.used <= |s|
    ensures r.err == SUCCESS <==> CRLF <= s
    ensures r.used == if r.err == SUCCESS then 2 else 0
  {
    if s == [] then Scan(CURRENT_BEYOND_END, (), 0)
    else if s[0] != CR then Scan(CRLF_MISSING, (), 0)
    else if |s| == 1 then Scan(CURRENT_BEYOND_END, (), 0)
    else if s[1] != LF then Scan(CRLF_MISSING, (), 0)
    else assert s[..2] == CRLF; Scan(SUCCESS, (), 2)
  }

  /** The text of a bulk string announced with `length > 0`: exactly that many
      bytes without CR or LF, then CRLF. Only what precedes a NUL is kept. */
  function BulkBody(s: Bytes, length: nat): (r: Scan<Bytes>)
    ensures r.used <= |s|
    ensures r.err == SUCCESS ==> r.used == length + 2
  {
    var clean := Span(s, IsNotCrOrLf);
    if clean >= length then
      var crlf := SkipCrLf(s[length..]);
      if crlf.err != SUCCESS then Scan(crlf.err, [], 0)
      else Scan(SUCCESS, CString(s[..length]), length + 2)
    else if clean == |s| then Scan(CURRENT_BEYOND_END, [], 0)
    else Scan(STRING_CONTAINS_CRLF, [], 0)
  }

  /** A bulk string after its tag; the value pairs the text with the announced
      length. */
  function GetBulkInternal(s: Bytes): (r: Scan<(Bytes, int)>)
    ensures r.used <= |s|
    ensures r.err == SUCCESS ==> r.used >= 3
  {
    var length := GetLength(s);
    if length.err != SUCCESS then Scan(length.err, ([], 0), length.used) else
      var crlf := SkipCrLf(s[length.used..]);
      var start := length.used + crlf.used;
      if crlf.err != SUCCESS then Scan(crlf.err, ([], length.value), start)
      else if length.value < 0 then Scan(SUCCESS, ([], length.value), start)
      else if length.value == 0 then
        var second := SkipCrLf(s[start..]);
        Scan(second.err, ([], 0), start + second.used)
      else
        var body := BulkBody(s[start..], length.value);
        Scan(body.err, (body.value, length.value), start + body.used)
  }

  function GetBulkString(s: Bytes): (r: Parsed)
    ensures r.used <= |s|
    ensures r.err == SUCCESS ==> r.used >= 3 && r.value.Some?
  {
    var text := GetBulkInternal(s);
    if text.err != SUCCESS then Scan(text.err, None, text.used)
    else Scan(SUCCESS, Some(BulkString(text.value.0, text.value.1 < 0)), text.used)
  }

  /** An array after its tag. */
  function GetArray(s: Bytes): (r: Parsed)
    ensures r.used <= |s|
    ensures r.err == SUCCESS ==> r.used >= 3 && r.value.Some?
    decreases |s|, 0
  {
    var length := GetLength(s);
    if length.err != SUCCESS then Scan(INVALID_ARRAY_LENGTH, None, length.used) else
      var crlf := SkipCrLf(s[length.used..]);
      var start := length.used + crlf.used;
      if length.value < 0 then Scan(crlf.err, Some(Array([])), start)
      else if crlf.err != SUCCESS then Scan(crlf.err, None, start)
      else
        var items := GetItems(s[start..], length.value, []);
        Scan(items.err, items.value, start + items.used)
  }

  /** The `count` elements still to read, after those in `items`. */
  function GetItems(s: Bytes, count: nat, items: seq<Object>): (r: Parsed)
    ensures r.used <= |s|
    ensures r.err == SUCCESS ==> r.value.Some? && r.value.value.Array?
    decreases |s|, 2
  {
    if count == 0 then Scan(SUCCESS, Some(Array(items)), 0) else
      var item := GetObject(s);
      if item.err != SUCCESS then Scan(item.err, None, item.used) else
        var rest := GetItems(s[item.used..], count - 1, items + [item.value.value]);
        Scan(rest.err, rest.value, item.used + rest.used)
  }

  /** Any value: its tag, then the rest. */
  function GetObject(s: Bytes): (r: Parsed)
    ensures r.used <= |s|
    ensures r.err == SUCCESS ==> r.used >= 4 && r.value.Some?
    decreases |s|, 1
  {
    var tag := GetType(s);
    if tag.err != SUCCESS then Scan(tag.err, None, 0)
    else if tag.value == BulkTag then
      var bulk := GetBulkString(s[1..]);
      Scan(bulk.err, bulk.value, 1 + bulk.used)
    else if tag.value == ArrayTag then
      var arr := GetArray(s[1..]);
      Scan(arr.err, arr.value, 1 + arr.used)
    else Scan(NOT_IMPLEMENTED, None, 1)
  }

  /** `s` begins with an encoding of `v` that takes `n` bytes. */
  predicate Accepts(s: Bytes, v: Object, n: nat) {
    GetObject(s) == Scan(SUCCESS, Some(v), n)
  }
}

/** The wire format that the parser accepts, written down as a grammar: a relation
    between bytes and values that names every byte by its number and calls none of the
    parser's functions. The parser accepts exactly this. */
module RespGrammar {
  import opened ByteStrings
  import opened RespObject
  import opened RespSyntax
  import opened RespLaws

  // ---- numbers ----

  predicate IsBlank(b: byte) { b == 32 || 9 <= b <= 13 }

  predicate IsFigure(b: byte) { 48 <= b <= 57 }

  predicate AllFigures(d: Bytes) {
    forall i | 0 <= i < |d| :: IsFigure(d[i])
  }

  function PowerOfTen(n: nat): nat {
    if n == 0 then 1 else 10 * PowerOfTen(n - 1)
  }

  /** What figures stand for: the first counts most. */
  function Positional(d: Bytes): nat
    requires AllFigures(d)
  {
    if d == [] then 0 else
      assert IsFigure(d[0]);
      (d[0] - 48) * PowerOfTen(|d| - 1) + Positional(d[1..])
  }

  lemma {:induction false} OneMoreFigure(d: Bytes, b: byte)
    requires AllFigures(d) && IsFigure(b)
    ensures AllFigures(d + [b]) && Positional(d + [b]) == 10 * Positional(d) + (b - 48)
  {
    assert AllFigures(d + [b]);
    if d == [] {
      assert [b][1..] == [];
      assert [] + [b] == [b];
      assert Positional([b]) == (b - 48) * PowerOfTen(0) + Positional([]);
    } else {
      OneMoreFigure(d[1..], b);
      assert (d + [b])[1..] == d[1..] + [b];
      var first := d[0] - 48;
      assert first * (10 * PowerOfTen(|d| - 1)) == 10 * (first * PowerOfTen(|d| - 1));
    }
  }

  /** The parser and the printer agree with that. */
  lemma {:induction false} DigitsArePositional(d: Bytes)
    requires AllFigures(d)
    ensures AllDigits(d) && DigitsValue(d) == Positional(d)
  {
    assert forall i | 0 <= i < |d| :: IsFigure(d[i]);
    if d != [] {
      var init, last := d[..|d| - 1], d[|d| - 1];
      DigitsArePositional(init);
      OneMoreFigure(init, last);
      assert init + [last] == d;
    }
  }

  /** A printed number is plain figures that stand for it, with no figure to spare. */
  lemma {:induction false} DecimalIsPlain(n: nat)
    ensures AllFigures(Decimal(n)) && Positional(Decimal(n)) == n
    ensures Decimal(n)[0] == 48 ==> Decimal(n) == [48]
  {
    DigitsOfDecimal(n);
    assert forall i | 0 <= i < |Decimal(n)| :: IsDigit(Decimal(n)[i]);
    DigitsArePositional(Decimal(n));
    if n >= 10 {
      DecimalIsPlain(n / 10);
      assert Positional([48]) == 0 by {
        assert [48 as byte][1..] == [];
      }
    }
  }

  /** A number as a long holds it, and then an int: clipped, then wrapped. */
  predicate ReadsAs(number: int, size: int) {
    var long := if number > 9223372036854775807 then 9223372036854775807
                else if number < -9223372036854775808 then -9223372036854775808
                else number;
    -2147483648 <= size <= 2147483647 && (long - size) % 4294967296 == 0
  }

  lemma ReadsAsOne(number: int, size: int)
    ensures ReadsAs(number, size) <==> size == ToInt32(Saturate(number))
  {
    hide ToInt32;
    if ReadsAs(number, size) {
      SameResidue(Saturate(number), size, ToInt32(Saturate(number)));
    }
  }

  lemma SameResidue(n: int, a: int, b: int)
    requires -2147483648 <= a <= 2147483647 && -2147483648 <= b <= 2147483647
    requires (n - a) % 4294967296 == 0 && (n - b) % 4294967296 == 0
    ensures a == b
  {
    var p, q := (n - a) / 4294967296, (n - b) / 4294967296;
    assert n - a == 4294967296 * p && n - b == 4294967296 * q;
  }

  // ---- the grammar ----

  /** Blanks, an optional sign, figures, CR LF. */
  predicate Header(s: Bytes, blanks: nat, sign: nat, figures: nat, size: int) {
    var start := blanks + sign;
    && figures >= 1 && start + figures + 2 <= |s|
    && (forall i | 0 <= i < blanks :: IsBlank(s[i]))
    && (sign == 0 || (sign == 1 && (s[blanks] == 43 || s[blanks] == 45)))
    && AllFigures(s[start..start + figures])
    && s[start + figures] == 13 && s[start + figures + 1] == 10
    && var magnitude: int := Positional(s[start..start + figures]);
       ReadsAs(if sign == 1 && s[blanks] == 45 then -magnitude else magnitude, size)
  }

  /** The first `n` bytes announce a size. */
  ghost predicate Announces(s: Bytes, n: nat, size: int) {
    exists blanks: nat, sign: nat, figures: nat ::
      Header(s, blanks, sign, figures, size) && n == blanks + sign + figures + 2
  }

  /** The bytes of a text, of which what precedes a NUL is kept. */
  predicate KeptOf(value: Bytes, text: Bytes) {
    && value <= text
    && (forall i | 0 <= i < |value| :: value[i] != 0)
    && (|value| < |text| ==> text[|value|] == 0)
  }

  predicate EndsLine(s: Bytes, i: nat) { i + 2 <= |s| && s[i] == 13 && s[i + 1] == 10 }

  /** After the header of a bulk string. */
  predicate BulkRest(s: Bytes, size: int, value: Bytes, isNull: bool, n: int) {
    if size < 0 then isNull && value == [] && n == 0
    else if size == 0 then !isNull && value == [] && n == 2 && EndsLine(s, 0)
    else
      && !isNull && n == size + 2 && EndsLine(s, size)
      && (forall i | 0 <= i < size :: s[i] != 13 && s[i] != 10)
      && KeptOf(value, s[..size])
  }

  /** `s` begins with an encoding of `v` that takes `n` bytes. */
  ghost predicate Encodes(s: Bytes, v: Object, n: nat)
    decreases v, 1
  {
    match v
    case BulkString(value, isNull) =>
      && s != [] && s[0] == 36
      && exists h: nat, size: int ::
           Announces(s[1..], h, size) && h < |s| && BulkRest(s[1 + h..], size, value, isNull, n - 1 - h)
    case Array(items) =>
      && s != [] && s[0] == 42
      && exists h: nat, size: int ::
           Announces(s[1..], h, size) && h < |s| && ArrayRest(s[1 + h..], size, items, n - 1 - h)
    case _ => false
  }

  /** After the header of an array. */
  ghost predicate ArrayRest(s: Bytes, size: int, items: seq<Object>, n: int)
    decreases items, 1
  {
    if size <= 0 then items == [] && n == 0
    else |items| == size && n >= 0 && EncodeInTurn(s, items, n)
  }

  ghost predicate EncodeInTurn(s: Bytes, items: seq<Object>, n: nat)
    decreases items, 0
  {
    if items == [] then n == 0 else
      exists k: nat :: k <= n && k <= |s| && Encodes(s, items[0], k) && EncodeInTurn(s[k..], items[1..], n - k)
  }

  // ---- sizes ----

  /** Blanks, an optional sign, and all the figures that follow. */
  predicate NumberText(s: Bytes, blanks: nat, sign: nat, figures: nat) {
    var start := blanks + sign;
    && figures >= 1 && start + figures <= |s|
    && (forall i | 0 <= i < blanks :: IsBlank(s[i]))
    && (sign == 0 || (sign == 1 && (s[blanks] == 43 || s[blanks] == 45)))
    && AllFigures(s[start..start + figures])
    && (start + figures < |s| ==> !IsFigure(s[start + figures]))
  }

  lemma NumberIsScanned(s: Bytes, blanks: nat, sign: nat, figures: nat)
    requires NumberText(s, blanks, sign, figures)
    ensures var start := blanks + sign;
            var magnitude: int := Positional(s[start..start + figures]);
            StrToL(s) == (Saturate(if sign == 1 && s[blanks] == 45 then -magnitude else magnitude), start + figures)
  {
    hide Positional, Saturate;
    var start := blanks + sign;
    var text := s[start..start + figures];
    assert s[start..][..figures] == text;
    assert IsFigure(text[0]) && text[0] == s[start];
    DigitsArePositional(text);
    SpanIsUnique(s, IsSpace, blanks);
    forall i | 0 <= i < figures
      ensures IsDigit(s[start..][i])
    {
      assert IsFigure(text[i]);
    }
    SpanIsUnique(s[start..], IsDigit, figures);
  }

  /** A size is read off any such text, wherever it ends; but a zero at the very end of
      the text, or before a NUL, is reported as no number. */
  lemma SizesAreRead(s: Bytes, blanks: nat, sign: nat, figures: nat, size: int)
    requires NumberText(s, blanks, sign, figures)
    requires var magnitude: int := Positional(s[blanks + sign..blanks + sign + figures]);
             ReadsAs(if sign == 1 && s[blanks] == 45 then -magnitude else magnitude, size)
    ensures var end := blanks + sign + figures;
            if Positional(s[blanks + sign..end]) == 0 && (end == |s| || s[end] == 0)
            then GetLength(s) == Scan(INVALID_NUMBER, 0, 0)
            else GetLength(s) == Scan(SUCCESS, size, end)
  {
    hide StrToL, Positional;
    NumberIsScanned(s, blanks, sign, figures);
    var magnitude: int := Positional(s[blanks + sign..blanks + sign + figures]);
    ReadsAsOne(if sign == 1 && s[blanks] == 45 then -magnitude else magnitude, size);
    assert s[0] != 0;
  }

  lemma NoSize(s: Bytes)
    requires forall blanks: nat, sign: nat, figures: nat :: !NumberText(s, blanks, sign, figures)
    ensures GetLength(s) == Scan(if s == [] then CURRENT_BEYOND_END else INVALID_NUMBER, 0, 0)
  {
    if s != [] {
      var blanks := Span(s, IsSpace);
      var sign := if blanks < |s| && IsSign(s[blanks]) then 1 else 0;
      var start := blanks + sign;
      var figures := Span(s[start..], IsDigit);
      if figures > 0 {
        assert s[start..][..figures] == s[start..start + figures];
        assert forall i | 0 <= i < figures :: IsDigit(s[start..][i]);
        assert NumberText(s, blanks, sign, figures);
      }
    }
  }

  // ---- headers ----

  lemma HeaderIsRead(s: Bytes, blanks: nat, sign: nat, figures: nat, size: int)
    requires Header(s, blanks, sign, figures, size)
    ensures var length := GetLength(s);
            && length == Scan(SUCCESS, size, blanks + sign + figures)
            && SkipCrLf(s[length.used..]).err == SUCCESS
  {
    hide GetLength, Positional, ReadsAs;
    SizesAreRead(s, blanks, sign, figures, size);
    assert s[blanks + sign + figures..][..2] == CRLF;
  }

  lemma ReadIsHeader(s: Bytes) returns (blanks: nat, sign: nat, figures: nat)
    requires GetLength(s).err == SUCCESS && SkipCrLf(s[GetLength(s).used..]).err == SUCCESS
    ensures Header(s, blanks, sign, figures, GetLength(s).value)
    ensures blanks + sign + figures == GetLength(s).used
  {
    hide GetLength, Positional, ReadsAs, NumberText;
    assert s[GetLength(s).used..][..2] == CRLF;
    if forall b: nat, g: nat, f: nat :: !NumberText(s, b, g, f) {
      NoSize(s);
      assert false;
    }
    blanks, sign, figures :| NumberText(s, blanks, sign, figures);
    TextIsHeader(s, blanks, sign, figures);
  }

  lemma TextIsHeader(s: Bytes, blanks: nat, sign: nat, figures: nat)
    requires NumberText(s, blanks, sign, figures)
    requires GetLength(s).err == SUCCESS && SkipCrLf(s[GetLength(s).used..]).err == SUCCESS
    ensures Header(s, blanks, sign, figures, GetLength(s).value)
    ensures blanks + sign + figures == GetLength(s).used
  {
    hide GetLength, Positional, ReadsAs;
    var end := blanks + sign + figures;
    var magnitude: int := Positional(s[blanks + sign..end]);
    var number := if sign == 1 && s[blanks] == 45 then -magnitude else magnitude;
    ReadsAsOne(number, ToInt32(Saturate(number)));
    SizesAreRead(s, blanks, sign, figures, ToInt32(Saturate(number)));
    assert s[end..][..2] == CRLF;
    assert s[end] == 13 && s[end + 1] == 10;
  }

  lemma AnnouncesExactly(s: Bytes, n: nat, size: int)
    ensures Announces(s, n, size) <==>
            var length := GetLength(s);
            && length.err == SUCCESS && SkipCrLf(s[length.used..]).err == SUCCESS
            && length.value == size && n == length.used + 2
  {
    hide Header, GetLength, SkipCrLf;
    var length := GetLength(s);
    if Announces(s, n, size) {
      var blanks: nat, sign: nat, figures: nat :|
        Header(s, blanks, sign, figures, size) && n == blanks + sign + figures + 2;
      HeaderIsRead(s, blanks, sign, figures, size);
    }
    if length.err == SUCCESS && SkipCrLf(s[length.used..]).err == SUCCESS {
      var blanks, sign, figures := ReadIsHeader(s);
    }
  }

  // ---- bulk strings ----

  lemma KeptIsCString(value: Bytes, text: Bytes)
    ensures KeptOf(value, text) <==> value == CString(text)
  {
    var c := CString(text);
    assert forall i | 0 <= i < |c| :: IsNotNul(c[i]);
    if KeptOf(value, text) {
      assert |value| == |c|;
    }
  }

  lemma BodyExactly(s: Bytes, size: nat, value: Bytes, n: int)
    requires size > 0
    ensures BulkRest(s, size, value, false, n)
            <==> BulkBody(s, size).err == SUCCESS && value == BulkBody(s, size).value && n == size + 2
  {
    hide KeptOf, CString;
    var clean := Span(s, IsNotCrOrLf);
    if size <= |s| {
      KeptIsCString(value, s[..size]);
      assert EndsLine(s, size) <==> CRLF <= s[size..];
      if forall i | 0 <= i < size :: s[i] != 13 && s[i] != 10 {
        assert clean >= size;
      }
    }
  }

  /** The parser delivers `v` and moves on by `n`; the rest is left to the reader. */
  predicate Delivers(r: Parsed, v: Object, n: int) {
    r.err == SUCCESS && r.value == Some(v) && r.used == n
  }

  lemma BulkRestExactly(s: Bytes, value: Bytes, isNull: bool, n: int)
    ensures Delivers(GetBulkString(s), BulkString(value, isNull), n)
            <==> exists h: nat, size: int ::
                   Announces(s, h, size) && h <= |s| && BulkRest(s[h..], size, value, isNull, n - h)
  {
    hide GetLength, Announces, BulkBody, KeptOf, CString;
    var length := GetLength(s);
    var header := SkipCrLf(s[length.used..]);
    if length.err == SUCCESS && header.err == SUCCESS {
      var h, size := length.used + 2, length.value;
      AnnouncesExactly(s, h, size);
      if size > 0 {
        BodyExactly(s[h..], size, value, n - h);
      }
      assert Delivers(GetBulkString(s), BulkString(value, isNull), n)
          <==> BulkRest(s[h..], size, value, isNull, n - h);
      forall h': nat, size': int | Announces(s, h', size')
        ensures h' == h && size' == size
      {
        AnnouncesExactly(s, h', size');
      }
    } else {
      forall h: nat, size: int
        ensures !Announces(s, h, size)
      {
        AnnouncesExactly(s, h, size);
      }
    }
  }

  // ---- arrays ----

  lemma ArrayRestExactly(s: Bytes, items: seq<Object>, n: int)
    requires forall t: Bytes, m: nat ::
               Delivers(GetItems(t, |items|, []), Array(items), m) <==> EncodeInTurn(t, items, m)
    ensures Delivers(GetArray(s), Array(items), n)
            <==> exists h: nat, size: int ::
                   Announces(s, h, size) && h <= |s| && ArrayRest(s[h..], size, items, n - h)
  {
    hide GetLength, Announces, GetItems, EncodeInTurn;
    var length := GetLength(s);
    var header := SkipCrLf(s[length.used..]);
    if length.err == SUCCESS && header.err == SUCCESS {
      var h, size := length.used + 2, length.value;
      AnnouncesExactly(s, h, size);
      if size >= 0 {
        CountOfItems(s[h..], size);
      }
      if n - h >= 0 {
        assert Delivers(GetItems(s[h..], |items|, []), Array(items), n - h)
            <==> EncodeInTurn(s[h..], items, n - h);
      }
      ZeroItems(s[h..]);
      assert Delivers(GetArray(s), Array(items), n) <==> ArrayRest(s[h..], size, items, n - h);
      forall h': nat, size': int | Announces(s, h', size')
        ensures h' == h && size' == size
      {
        AnnouncesExactly(s, h', size');
      }
    } else {
      forall h: nat, size: int
        ensures !Announces(s, h, size)
      {
        AnnouncesExactly(s, h, size);
      }
    }
  }

  lemma ZeroItems(s: Bytes)
    ensures GetItems(s, 0, []) == Scan(SUCCESS, Some(Array([])), 0)
  {
  }

  lemma CountOfItems(s: Bytes, count: nat)
    ensures GetItems(s, count, []).err == SUCCESS ==> |GetItems(s, count, []).value.value.items| == count
  {
    if GetItems(s, count, []).err == SUCCESS {
      ParsedItemsAreCanonical(s, count, []);
    }
  }

  lemma {:induction false} ItemsAreAppended(s: Bytes, count: nat, items: seq<Object>)
    requires GetItems(s, count, items).err == SUCCESS
    ensures var all := GetItems(s, count, items).value.value.items;
            items <= all && |all| == |items| + count
    decreases count
  {
    hide GetObject;
    if count > 0 {
      var item := GetObject(s);
      ItemsAreAppended(s[item.used..], count - 1, items + [item.value.value]);
    }
  }

  lemma BulkObjectExactly(s: Bytes, value: Bytes, isNull: bool, n: nat)
    ensures Delivers(GetObject(s), BulkString(value, isNull), n) <==> Encodes(s, BulkString(value, isNull), n)
  {
    hide GetBulkString, GetArray, BulkRest, Announces;
    if s != [] {
      BulkRestExactly(s[1..], value, isNull, n - 1);
      ArraysAreArrays(s[1..]);
      forall h: nat | h < |s|
        ensures s[1..][h..] == s[1 + h..]
      {
      }
    }
  }

  lemma ArraysAreArrays(s: Bytes)
    ensures GetArray(s).err == SUCCESS ==> GetArray(s).value.value.Array?
    ensures GetBulkString(s).err == SUCCESS ==> GetBulkString(s).value.value.BulkString?
  {
    hide GetLength, GetItems, GetBulkInternal;
  }

  lemma ArrayObjectExactly(s: Bytes, items: seq<Object>, n: nat)
    requires forall t: Bytes, m: nat ::
               Delivers(GetItems(t, |items|, []), Array(items), m) <==> EncodeInTurn(t, items, m)
    ensures Delivers(GetObject(s), Array(items), n) <==> Encodes(s, Array(items), n)
  {
    hide GetBulkString, GetArray, GetItems, ArrayRest, EncodeInTurn, Announces;
    if s != [] {
      ArrayRestExactly(s[1..], items, n - 1);
      ArraysAreArrays(s[1..]);
      forall h: nat | h < |s|
        ensures s[1..][h..] == s[1 + h..]
      {
      }
    }
  }

  // ---- the parser accepts exactly the grammar ----

  lemma {:induction false} DeliversExactly(s: Bytes, v: Object, n: nat)
    ensures Delivers(GetObject(s), v, n) <==> Encodes(s, v, n)
    decreases v, 1
  {
    hide GetItems, GetBulkString, GetArray, EncodeInTurn;
    match v
    case BulkString(value, isNull) => BulkObjectExactly(s, value, isNull, n);
    case Array(items) =>
      forall t: Bytes, m: nat
        ensures Delivers(GetItems(t, |items|, []), Array(items), m) <==> EncodeInTurn(t, items, m)
      {
        ItemsExactly(t, items, [], m);
        assert [] + items == items;
      }
      ArrayObjectExactly(s, items, n);
    case _ =>
      if s != [] {
        ArraysAreArrays(s[1..]);
      }
  }

  lemma {:induction false} ItemsExactly(s: Bytes, items: seq<Object>, before: seq<Object>, n: nat)
    ensures Delivers(GetItems(s, |items|, before), Array(before + items), n) <==> EncodeInTurn(s, items, n)
    decreases items, 0
  {
    hide GetObject, GetItems, Encodes, EncodeInTurn, Delivers;
    if items == [] {
      NoItems(s, before, n);
    } else {
      var next := before + [items[0]];
      if Delivers(GetItems(s, |items|, before), Array(before + items), n) {
        var k := FirstDelivered(s, items, before, n);
        DeliversExactly(s, items[0], k);
        ItemsExactly(s[k..], items[1..], next, n - k);
        FirstEncoded(s, items, n, k);
      }
      if EncodeInTurn(s, items, n) {
        var k := EncodedFirst(s, items, n);
        DeliversExactly(s, items[0], k);
        ItemsExactly(s[k..], items[1..], next, n - k);
        DeliveredFirst(s, items, before, n, k);
      }
    }
  }

  lemma NoItems(s: Bytes, before: seq<Object>, n: nat)
    ensures Delivers(GetItems(s, 0, before), Array(before + []), n) <==> EncodeInTurn(s, [], n)
  {
    assert before + [] == before;
  }

  lemma FirstDelivered(s: Bytes, items: seq<Object>, before: seq<Object>, n: nat) returns (k: nat)
    requires items != [] && Delivers(GetItems(s, |items|, before), Array(before + items), n)
    ensures k <= n && k <= |s| && Delivers(GetObject(s), items[0], k)
    ensures Delivers(GetItems(s[k..], |items| - 1, before + [items[0]]),
                     Array(before + [items[0]] + items[1..]), n - k)
  {
    hide GetObject;
    var item := GetObject(s);
    k := item.used;
    ItemsAreAppended(s[k..], |items| - 1, before + [item.value.value]);
    assert item.value.value == (before + items)[|before|];
    assert before + [items[0]] + items[1..] == before + items;
  }

  lemma DeliveredFirst(s: Bytes, items: seq<Object>, before: seq<Object>, n: nat, k: nat)
    requires items != [] && k <= n && k <= |s| && Delivers(GetObject(s), items[0], k)
    requires Delivers(GetItems(s[k..], |items| - 1, before + [items[0]]),
                      Array(before + [items[0]] + items[1..]), n - k)
    ensures Delivers(GetItems(s, |items|, before), Array(before + items), n)
  {
    hide GetObject;
    assert before + [items[0]] + items[1..] == before + items;
  }

  lemma FirstEncoded(s: Bytes, items: seq<Object>, n: nat, k: nat)
    requires items != [] && k <= n && k <= |s| && Encodes(s, items[0], k)
    requires EncodeInTurn(s[k..], items[1..], n - k)
    ensures EncodeInTurn(s, items, n)
  {
    hide Encodes;
  }

  lemma EncodedFirst(s: Bytes, items: seq<Object>, n: nat) returns (k: nat)
    requires items != [] && EncodeInTurn(s, items, n)
    ensures k <= n && k <= |s| && Encodes(s, items[0], k) && EncodeInTurn(s[k..], items[1..], n - k)
  {
    hide Encodes;
    k :| k <= n && k <= |s| && Encodes(s, items[0], k) && EncodeInTurn(s[k..], items[1..], n - k);
  }

  /** For all bytes, values and numbers: the parser accepts these bytes as this value,
      consuming so many of them, if and only if the grammar says that they encode it.
      So it rejects exactly the bytes that encode nothing. */
  lemma AcceptsExactlyTheGrammar(s: Bytes, v: Object, n: nat)
    ensures Accepts(s, v, n) <==> Encodes(s, v, n)
    ensures GetObject(s).err == SUCCESS <==> exists w: Object, m: nat :: Encodes(s, w, m)
  {
    hide GetObject, Encodes;
    DeliversExactly(s, v, n);
    var r := GetObject(s);
    if r.err == SUCCESS {
      DeliversExactly(s, r.value.value, r.used);
    }
    if exists w: Object, m: nat :: Encodes(s, w, m) {
      var w: Object, m: nat :| Encodes(s, w, m);
      DeliversExactly(s, w, m);
    }
  }

  /** Any size that reads as a negative int, however it is written, makes an array
      without elements and a null bulk string, of which nothing but the header is read. */
  lemma NegativeSizes(s: Bytes, h: nat, size: int)
    requires Announces(s, h, size) && size < 0
    ensures h <= |s|
    ensures Accepts([42] + s, Array([]), 1 + h) && Accepts([36] + s, BulkString([], true), 1 + h)
  {
    hide GetObject, Announces;
    AnnouncesExactly(s, h, size);
    assert ([42] + s)[1..] == s && ([36] + s)[1..] == s;
    assert ArrayRest(([42] + s)[1 + h..], size, [], 0);
    assert BulkRest(([36] + s)[1 + h..], size, [], true, 0);
    AcceptsExactlyTheGrammar([42] + s, Array([]), 1 + h);
    AcceptsExactlyTheGrammar([36] + s, BulkString([], true), 1 + h);
  }

  /** The null array of the protocol, for one, is an array without elements. */
  lemma NullArray(rest: Bytes)
    ensures Accepts([42, 45, 49, 13, 10] + rest, Array([]), 5)
  {
    hide GetObject;
    var s := [45, 49, 13, 10] + rest;
    assert s[1..2] == [49];
    assert [49 as byte][1..] == [];
    assert Positional([49]) == 1 * PowerOfTen(0) + Positional([]);
    assert Header(s, 0, 1, 1, -1);
    NegativeSizes(s, 4, -1);
    assert [42, 45, 49, 13, 10] + rest == [42] + s;
  }

  // ---- which error is reported ----

  /** The first byte alone decides whether it is one of the five tags, and one of the
      two that are read. */
  lemma TagErrors(s: Bytes)
    ensures s == [] ==> GetObject(s).err == CURRENT_BEYOND_END
    ensures s != [] && s[0] !in {36, 42, 43, 45, 58} ==> GetObject(s).err == INVALID_TYPE
    ensures s != [] && s[0] in {43, 45, 58} ==> GetObject(s).err == NOT_IMPLEMENTED
  {
  }

  /** A line end that is cut off is told from one that is missing. */
  lemma LineEndErrors(s: Bytes)
    ensures SkipCrLf(s).err == if EndsLine(s, 0) then SUCCESS
                               else if s == [] || s == [13] then CURRENT_BEYOND_END
                               else CRLF_MISSING
  {
  }

  /** So is a text that is too short from one with a line end, or half of one, inside. */
  lemma TextErrors(s: Bytes, size: nat)
    requires size > 0
    ensures var broken := exists i :: 0 <= i < size && i < |s| && (s[i] == 13 || s[i] == 10);
            BulkBody(s, size).err == if broken then STRING_CONTAINS_CRLF
                                     else if |s| < size then CURRENT_BEYOND_END
                                     else SkipCrLf(s[size..]).err
  {
    var clean := Span(s, IsNotCrOrLf);
    assert clean < |s| ==> !IsNotCrOrLf(s[clean]);
    assert forall i | 0 <= i < clean :: IsNotCrOrLf(s[i]);
  }

  /** The first of these that goes wrong is reported for a bulk string; */
  lemma BulkErrorsInOrder(s: Bytes)
    ensures var size, line := GetLength(s), SkipCrLf(s[GetLength(s).used..]).err;
            GetObject([36] + s).err
            == if size.err != SUCCESS then size.err
               else if line != SUCCESS then line
               else if size.value < 0 then SUCCESS
               else if size.value == 0 then SkipCrLf(s[size.used + 2..]).err
               else BulkBody(s[size.used + 2..], size.value).err
  {
    hide GetLength, SkipCrLf, BulkBody, GetArray;
    assert ([36] + s)[1..] == s;
  }

  /** for an array too, but for a size that is none, which makes a bad array; and then
      the first element that goes wrong. */
  lemma ArrayErrorsInOrder(s: Bytes)
    ensures var size, line := GetLength(s), SkipCrLf(s[GetLength(s).used..]).err;
            GetObject([42] + s).err
            == if size.err != SUCCESS then INVALID_ARRAY_LENGTH
               else if line != SUCCESS then line
               else if size.value <= 0 then SUCCESS
               else ElementsError(s[size.used + 2..], size.value)
  {
    hide GetLength, SkipCrLf, GetBulkString, GetItems;
    assert ([42] + s)[1..] == s;
    var size := GetLength(s);
    if size.err == SUCCESS && SkipCrLf(s[size.used..]).err == SUCCESS && size.value >= 0 {
      ElementsErrorExactly(s[size.used + 2..], size.value, []);
    }
  }

  function ElementsError(s: Bytes, count: nat): ParseError
    decreases count
  {
    if count == 0 then SUCCESS
    else if GetObject(s).err != SUCCESS then GetObject(s).err
    else ElementsError(s[GetObject(s).used..], count - 1)
  }

  lemma {:induction false} ElementsErrorExactly(s: Bytes, count: nat, items: seq<Object>)
    ensures GetItems(s, count, items).err == ElementsError(s, count)
    decreases count
  {
    hide GetObject;
    if count > 0 && GetObject(s).err == SUCCESS {
      var item := GetObject(s);
      ElementsErrorExactly(s[item.used..], count - 1, items + [item.value.value]);
    }
  }
}

/** What values read as, which is what keys are made of: byte by byte. */
module Texts {
  import opened ByteStrings
  import opened RespObject
  import opened RespGrammar

  /** Bulk strings and simple values read as themselves, the null as "nil", and a number
      as its sign and plain figures. */
  lemma SimpleTexts(value: Bytes, n: int)
    ensures ToText(BulkString(value, false)) == value && ToText(BulkString(value, true)) == [110, 105, 108]
    ensures ToText(SimpleString(value)) == value && ToText(ErrorString(value)) == value
    ensures var t := ToText(Integer(n));
            var figures := if n < 0 then t[1..] else t;
            && (n < 0 ==> t != [] && t[0] == 45)
            && AllFigures(figures) && Positional(figures) == (if n < 0 then -n else n)
  {
    if n < 0 {
      DecimalIsPlain(-n);
      assert SignedDecimal(n)[1..] == Decimal(-n);
    } else {
      DecimalIsPlain(n);
    }
  }

  /** Where the text of element `k` begins behind the opening bracket. */
  function Offset(items: seq<Object>, k: nat): nat
    requires k <= |items|
  {
    if k == 0 then 0 else Offset(items, k - 1) + |ToText(items[k - 1])| + 2
  }

  lemma {:induction false} OffsetsGrow(items: seq<Object>, j: nat, k: nat)
    requires j < k <= |items|
    ensures Offset(items, j) + |ToText(items[j])| + 2 <= Offset(items, k)
    decreases k
  {
    if j < k - 1 {
      OffsetsGrow(items, j, k - 1);
    }
  }

  lemma {:induction false} OffsetsOfInit(items: seq<Object>, k: nat)
    requires k < |items|
    ensures Offset(items[..|items| - 1], k) == Offset(items, k)
    decreases k
  {
    if k > 0 {
      OffsetsOfInit(items, k - 1);
    }
  }

  predicate ElementAt(text: Bytes, start: nat, items: seq<Object>, k: nat)
    requires k < |items|
  {
    var from, to := start + Offset(items, k), start + Offset(items, k) + |ToText(items[k])|;
    && to <= |text| && text[from..to] == ToText(items[k])
    && (k + 1 < |items| ==> to + 2 <= |text| && text[to] == 44 && text[to + 1] == 32)
  }

  lemma {:induction false} JoinedTexts(items: seq<Object>)
    requires items != []
    ensures |JoinTexts(items)| + 2 == Offset(items, |items|)
    ensures forall k | 0 <= k < |items| :: ElementAt(JoinTexts(items), 0, items, k)
  {
    hide ToText;
    var text, last := JoinTexts(items), |items| - 1;
    if last == 0 {
      assert text == ToText(items[0]);
    } else {
      var init := items[..last];
      JoinedTexts(init);
      OffsetsOfInit(items, last - 1);
      assert Offset(init, last) == Offset(items, last);
      forall k | 0 <= k < |items|
        ensures ElementAt(text, 0, items, k)
      {
        if k < last {
          assert ElementAt(JoinTexts(init), 0, init, k);
          OffsetsOfInit(items, k);
        }
      }
    }
  }

  /** An array reads as an opening bracket, the texts of its elements with a comma and a
      blank between neighbours and nowhere else, and a closing bracket: every byte of
      the text is one of these. */
  lemma ArrayText(items: seq<Object>)
    ensures var text := ToText(Array(items));
            && |text| == (if items == [] then 2 else Offset(items, |items|))
            && text[0] == 91 && text[|text| - 1] == 93
            && forall k | 0 <= k < |items| :: ElementAt(text, 1, items, k)
  {
    var text := ToText(Array(items));
    if items != [] {
      JoinedTexts(items);
      forall k | 0 <= k < |items|
        ensures ElementAt(text, 1, items, k)
      {
        assert ElementAt(JoinTexts(items), 0, items, k);
        var from, to := Offset(items, k), Offset(items, k) + |ToText(items[k])|;
        assert text[1 + from..1 + to] == JoinTexts(items)[from..to];
      }
    }
  }

  /** So different values may read the same, and be the same key: an array of "a" and
      "b", an array of the one text "a, b", and the text "[a, b]". */
  lemma TextsMayCollide()
    ensures var a, b := BulkString([97], false), BulkString([98], false);
            && ToText(Array([a, b])) == [91, 97, 44, 32, 98, 93]
            && ToText(Array([BulkString([97, 44, 32, 98], false)])) == [91, 97, 44, 32, 98, 93]
            && ToText(BulkString([91, 97, 44, 32, 98, 93], false)) == [91, 97, 44, 32, 98, 93]
  {
    var a, b := BulkString([97], false), BulkString([98], false);
    assert [a, b][..1] == [a];
    assert JoinTexts([a]) == [97];
    assert JoinTexts([a, b]) == [97] + SEPARATOR + [98];
  }
}

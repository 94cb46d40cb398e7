/** The recursive cursor parser (src/resp_parser.cpp) over its own mutable copy
    of the input. Every method does what RespSyntax says for the bytes that are
    left, moves the cursor by exactly the bytes consumed, and leaves the buffer
    as it found it. */
module RespParser {
  import opened ByteStrings
  import opened RespObject
  import opened RespSyntax

  class Parser {
    const buffer: array<byte>  // the input and the NUL that ends it
    const end: nat
    var current: nat

    ghost predicate Valid()
      reads this, buffer
    {
      current <= end && buffer.Length == end + 1 && buffer[end] == NUL
    }

    /** The bytes that are left. */
    function Rest(): Bytes
      requires Valid()
      reads this, buffer
    {
      buffer[current..end]
    }

    constructor (text: Bytes)
      ensures Valid() && fresh(buffer)
      ensures current == 0 && buffer[..] == text + [NUL]
      ensures Rest() == text
    {
      var copy := new byte[|text| + 1](i => if 0 <= i < |text| then text[i] else NUL);
      buffer := copy;
      end := |text|;
      current := 0;
      new;
      assert buffer[..] == text + [NUL];
      assert buffer[0..end] == text;
    }

    method GetType() returns (err: ParseError, tag: Tag)
      requires Valid()
      modifies this`current
      ensures Valid()
      ensures var r := RespSyntax.GetType(old(Rest()));
              err == r.err && tag == r.value && current == old(current) + r.used
    {
      tag := InvalidTag;
      err := SUCCESS;
      if current >= end {
        return CURRENT_BEYOND_END, InvalidTag;
      }
      tag := TagOf(buffer[current]);
      if tag == InvalidTag {
        err := INVALID_TYPE;
      }
      if tag != InvalidTag && err == SUCCESS {
        current := current + 1;
      }
    }

    method GetLength() returns (err: ParseError, length: int)
      requires Valid()
      modifies this`current
      ensures Valid()
      ensures var r := RespSyntax.GetLength(old(Rest()));
              err == r.err && length == r.value && current == old(current) + r.used
    {
      if current >= end {
        return CURRENT_BEYOND_END, 0;
      }
      var (number, offset) := StrToL(Rest());
      var endptr := current + offset;
      assert buffer[endptr] == CharAt(Rest(), offset);
      if number == 0 && (endptr == current || (buffer[current] != NUL && buffer[endptr] == NUL)) {
        return INVALID_NUMBER, 0;
      }
      current := endptr;
      return SUCCESS, ToInt32(number);
    }

    method SkipCrLf() returns (err: ParseError)
      requires Valid()
      modifies this`current
      ensures Valid()
      ensures var r := RespSyntax.SkipCrLf(old(Rest()));
              err == r.err && current == old(current) + r.used
    {
      var cursor := current;
      if cursor >= end {
        return CURRENT_BEYOND_END;
      }
      if buffer[cursor] != CR {
        return CRLF_MISSING;
      }
      cursor := cursor + 1;
      if cursor >= end {
        return CURRENT_BEYOND_END;
      }
      if buffer[cursor] != LF {
        return CRLF_MISSING;
      }
      cursor := cursor + 1;
      current := cursor;
      return SUCCESS;
    }

    /** The C string that starts at `from`, read up to the NUL that ends it. */
    method CStringAt(from: nat, ghost stop: nat) returns (text: Bytes)
      requires from <= stop < buffer.Length && buffer[stop] == NUL
      ensures text == CString(buffer[from..stop])
    {
      var i := from;
      while buffer[i] != NUL
        invariant from <= i <= stop
        invariant forall k | from <= k < i :: IsNotNul(buffer[k])
        decreases stop - i
      {
        i := i + 1;
      }
      text := buffer[from..i];
      SpanIsUnique(buffer[from..stop], IsNotNul, i - from);
    }

    method GetBulkInternal() returns (err: ParseError, text: Bytes, length: int)
      requires Valid()
      modifies this`current, buffer
      ensures Valid() && buffer[..] == old(buffer[..])
      ensures var r := RespSyntax.GetBulkInternal(old(Rest()));
              err == r.err && (text, length) == r.value && current == old(current) + r.used
    {
      hide RespSyntax.GetLength, RespSyntax.SkipCrLf, BulkBody;
      text := [];
      length := 0;
      var announced;
      err, announced := GetLength();
      if err != SUCCESS {
        return;
      }
      length := announced;
      assert Rest() == old(Rest())[current - old(current)..];
      err := SkipCrLf();
      if err != SUCCESS {
        return;
      }
      ghost var body := Rest();
      assert body == old(Rest())[current - old(current)..];
      if length < 0 {
        return;
      }
      if length == 0 {
        err := SkipCrLf();
        return;
      }
      err, text := GetBody(length);
    }

    /** The loop over the announced bytes, and the copy of them that overwrites
        the byte behind the text with a NUL for a moment. */
    method GetBody(length: nat) returns (err: ParseError, text: Bytes)
      requires Valid()
      modifies this`current, buffer
      ensures Valid() && buffer[..] == old(buffer[..])
      ensures var r := BulkBody(old(Rest()), length);
              err == r.err && text == r.value && current == old(current) + r.used
    {
      text := [];
      ghost var body := Rest();
      var cursor := current;
      var saveCurrent := cursor;
      for i := 0 to length
        invariant cursor == saveCurrent + i <= end
        invariant i <= Span(body, IsNotCrOrLf)
      {
        if cursor >= end {
          return CURRENT_BEYOND_END, text;
        }
        assert buffer[cursor] == body[i];
        if buffer[cursor] == CR || buffer[cursor] == LF {
          return STRING_CONTAINS_CRLF, text;
        }
        cursor := cursor + 1;
      }
      current := cursor;
      assert Rest() == body[length..];
      err := SkipCrLf();
      if err != SUCCESS {
        current := saveCurrent;
        return;
      }
      var saveChar := buffer[cursor];
      buffer[cursor] := NUL;
      text := CStringAt(saveCurrent, cursor);
      assert buffer[saveCurrent..cursor] == body[..length];
      buffer[cursor] := saveChar;
      assert buffer[..] == old(buffer[..]);
    }

    method GetBulkString() returns (err: ParseError, value: Option<Object>)
      requires Valid()
      modifies this`current, buffer
      ensures Valid() && buffer[..] == old(buffer[..])
      ensures var r := RespSyntax.GetBulkString(old(Rest()));
              err == r.err && value == r.value && current == old(current) + r.used
    {
      var text, length;
      err, text, length := GetBulkInternal();
      if err != SUCCESS {
        return err, None;
      }
      var bulk := BulkString(text, false);
      if length < 0 {
        bulk := bulk.(isNull := true);
      }
      return SUCCESS, Some(bulk);
    }

    method GetArray() returns (err: ParseError, value: Option<Object>)
      requires Valid()
      modifies this`current, buffer
      ensures Valid() && buffer[..] == old(buffer[..])
      ensures var r := RespSyntax.GetArray(old(Rest()));
              err == r.err && value == r.value && current == old(current) + r.used
      decreases end - current, 0
    {
      hide GetItems, RespSyntax.SkipCrLf, RespSyntax.GetLength;
      ghost var s := Rest();
      var length;
      err, length := GetLength();
      if err != SUCCESS {
        return INVALID_ARRAY_LENGTH, None;
      }
      assert Rest() == s[current - old(current)..];
      err := SkipCrLf();
      if length < 0 {
        return err, Some(Array([]));
      }
      if err != SUCCESS {
        return err, None;
      }
      assert Rest() == s[current - old(current)..];
      err, value := GetElements(length);
    }

    /** The loop over the elements. The source writes the dispatch on an element's
        tag out here; it is the same, branch for branch, as the one in `GetObject`. */
    method GetElements(length: nat) returns (err: ParseError, value: Option<Object>)
      requires Valid()
      modifies this`current, buffer
      ensures Valid() && buffer[..] == old(buffer[..])
      ensures var r := GetItems(old(Rest()), length, []);
              err == r.err && value == r.value && current == old(current) + r.used
      decreases end - current, 2
    {
      hide RespSyntax.GetObject;
      ghost var body := Rest();
      ghost var whole := GetItems(body, length, []);
      var items: seq<Object> := [];
      for i := 0 to length
        invariant Valid() && buffer[..] == old(buffer[..])
        invariant old(current) <= current
        invariant Rest() == body[current - old(current)..]
        invariant var r := GetItems(Rest(), length - i, items);
                  whole == Scan(r.err, r.value, current - old(current) + r.used)
      {
        ghost var left, before := Rest(), current;
        var item;
        err, item := GetObject();
        if err != SUCCESS {
          return err, None;
        }
        items := items + [item.value];
        assert Rest() == left[current - before..];
      }
      return SUCCESS, Some(Array(items));
    }

    method GetObject() returns (err: ParseError, value: Option<Object>)
      requires Valid()
      modifies this`current, buffer
      ensures Valid() && buffer[..] == old(buffer[..])
      ensures var r := RespSyntax.GetObject(old(Rest()));
              err == r.err && value == r.value && current == old(current) + r.used
      decreases end - current, 1
    {
      hide RespSyntax.GetBulkString, RespSyntax.GetArray;
      var tag;
      err, tag := GetType();
      if err != SUCCESS || tag == InvalidTag {
        return err, None;
      }
      assert Rest() == old(Rest())[1..];
      if tag == BulkTag {
        err, value := GetBulkString();
      } else if tag == ArrayTag {
        err, value := GetArray();
      } else {
        return NOT_IMPLEMENTED, None;
      }
    }
  }
}

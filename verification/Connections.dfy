/** The state of one connection (src/state.h): as a value, and as the record that
    the source updates in place. */
module Connections {
  import opened ByteStrings
  import opened RespObject
  import opened Commands
  import RespSyntax

  // "-Unexpected Error\r\n"
  const DEFAULT_SPECIAL_ERROR: Bytes :=
    [45, 85, 110, 101, 120, 112, 101, 99, 116, 101, 100, 32, 69, 114, 114, 111, 114, 13, 10]
  // "-ERROR\r\n"
  const DEFAULT_BUFFER: Bytes := [45, 69, 82, 82, 79, 82, 13, 10]

  /** `token` says whether `m_mutex` is locked; `special` is the C string in the
      buffer for special errors. */
  datatype Conn = Conn(
    socket: nat,
    token: bool,
    readData: Bytes,
    command: Option<Object>,
    response: Option<Object>,
    isError: bool,
    special: Bytes)

  function NewConn(socket: nat): Conn {
    Conn(socket, false, [], None, None, false, [])
  }

  /** Which is to say: nothing read, parsed or answered, no error, and the mutex free. */
  lemma NewStateIsEmpty(c: Conn)
    ensures var n := ResetConn(c);
            && n == NewConn(c.socket) && n.socket == c.socket && !n.token && !n.isError
            && n.readData == [] && n.special == [] && n.command == None && n.response == None
    ensures Clean(c) <==> c.(token := false) == ResetConn(c)
  {
  }

  /** A connection between two requests: nothing is left of the last one. */
  predicate Clean(c: Conn) {
    c == NewConn(c.socket).(token := c.token)
  }

  function ResetConn(c: Conn): Conn { NewConn(c.socket) }

  /** What a write job sends. */
  function WireBytes(c: Conn): Bytes {
    if c.special != [] then c.special
    else if c.response.Some? then CString(Serialize(c.response.value))
    else DEFAULT_BUFFER
  }

  /** What `ParseAndRunJob` records once it has an answer, which may be absent. */
  function Record(c: Conn, command: Option<Object>, fatal: bool, response: Option<Object>): Conn {
    var c' := c.(command := command, response := response);
    if !fatal then c'
    else if response.Some? then c'.(isError := true)
    else c'.(isError := true, special := DEFAULT_SPECIAL_ERROR)
  }

  /** What a write job falls back on: a special error, then the reply, then a fixed text;
      and the special error of a fatal answer that is absent. */
  lemma FallbackTexts(c: Conn)
    ensures c.special != [] ==> WireBytes(c) == c.special
    ensures c.special == [] && c.response.Some? ==> WireBytes(c) == CString(Serialize(c.response.value))
    ensures c.special == [] && c.response.None? ==> WireBytes(c) == [45, 69, 82, 82, 79, 82, 13, 10]
    ensures var c' := Record(c, c.command, true, None);
            c'.isError && c'.response == None
            && c'.special == [45, 85, 110, 101, 120, 112, 101, 99, 116, 101, 100, 32, 69, 114, 114, 111, 114, 13, 10]
  {
  }

  const SPECIAL_SIZE := 64

  /** What a bounded string copy of `limit` bytes leaves: the text, filled up with
      NULs. */
  function Padded(text: Bytes, limit: nat): (r: Bytes)
    ensures |r| == limit
  {
    seq(limit, i requires 0 <= i < limit => if i < |text| then text[i] else NUL)
  }

  lemma PaddedText(text: Bytes, last: Bytes)
    requires NulFree(text) && |text| < 63
    ensures CString(Padded(text, 63) + last) == text
  {
    var all := Padded(text, SPECIAL_SIZE - 1) + last;
    forall i | 0 <= i < |text|
      ensures IsNotNul(all[i])
    {
      assert IsNotNul(text[i]);
    }
    SpanIsUnique(all, IsNotNul, |text|);
    assert all[..|text|] == text;
  }

  // what a read leaves in its buffer
  const BUFSIZE := 513

  /** The C string in the buffer of a read is that of the bytes read, whatever lies
      behind the buffer, if and only if the read did not fill it or brought a NUL. */
  lemma ReadIsTerminated(chunk: Bytes)
    requires |chunk| <= 513
    ensures (forall beyond :: CString(Padded(chunk, 513) + beyond) == CString(chunk))
            <==> |chunk| < 513 || !NulFree(chunk)
  {
    if |chunk| < BUFSIZE || !NulFree(chunk) {
      var stop := if |chunk| < BUFSIZE then chunk else CString(chunk);
      forall beyond: Bytes
        ensures CString(Padded(chunk, BUFSIZE) + beyond) == CString(chunk)
      {
        var all := Padded(chunk, BUFSIZE) + beyond;
        assert all == stop + [NUL] + all[|stop| + 1..];
        CStringStopsAtNul(stop, all[|stop| + 1..]);
      }
    } else {
      assert Padded(chunk, BUFSIZE) == chunk;
      assert NulFree(chunk + [CR]);
      assert CString(chunk + [CR]) == chunk + [CR];
    }
  }

  class State {
    const socket: nat
    const specialError: array<byte>
    var mutexLocked: bool
    var readData: Bytes
    var command: Option<Object>
    var response: Option<Object>
    var isError: bool

    ghost predicate Valid() { specialError.Length == SPECIAL_SIZE }

    ghost function View(): Conn
      requires Valid()
      reads this, specialError
    {
      Conn(socket, mutexLocked, readData, command, response, isError, CString(specialError[..]))
    }

    constructor (fd: nat)
      ensures Valid() && fresh(specialError) && View() == NewConn(fd)
    {
      socket := fd;
      var buffer := new byte[SPECIAL_SIZE];
      buffer[0] := NUL;
      specialError := buffer;
      mutexLocked, readData, command, response, isError := false, [], None, None, false;
      new;
      assert !IsNotNul(specialError[..][0]);
    }

    /** Clears everything and lets the mutex, which the caller holds, go. */
    method Reset()
      requires Valid() && mutexLocked
      modifies this, specialError
      ensures View() == ResetConn(old(View()))
    {
      readData := [];
      command := None;
      response := None;
      isError := false;
      specialError[0] := NUL;
      assert !IsNotNul(specialError[..][0]);
      mutexLocked := false;
    }

    /** Copies at most 63 bytes of the C string; a shorter one arrives whole. */
    method SetSpecialError(err: Bytes)
      requires Valid()
      modifies this`isError, specialError
      ensures isError
      ensures specialError[..SPECIAL_SIZE - 1] == Padded(CString(err), SPECIAL_SIZE - 1)
      ensures |CString(err)| < SPECIAL_SIZE - 1 ==>
                View() == old(View()).(isError := true, special := CString(err))
    {
      var text := CString(err);
      for i := 0 to SPECIAL_SIZE - 1
        invariant forall k | 0 <= k < i :: specialError[k] == if k < |text| then text[k] else NUL
      {
        specialError[i] := if i < |text| then text[i] else NUL;
      }
      isError := true;
      assert specialError[..SPECIAL_SIZE - 1] == Padded(text, SPECIAL_SIZE - 1);
      if |text| < SPECIAL_SIZE - 1 {
        PaddedText(text, specialError[SPECIAL_SIZE - 1..]);
        assert specialError[..] == specialError[..SPECIAL_SIZE - 1] + specialError[SPECIAL_SIZE - 1..];
      }
    }

    /** The end of a parse job: the answer of the executor is kept for the writer. */
    method RecordAnswer(parsed: Option<Object>, fatal: bool, answer: Option<Object>)
      requires Valid()
      modifies this, specialError
      ensures View() == Record(old(View()), parsed, fatal, answer)
    {
      hide CString, Padded;
      command := parsed;
      response := answer;
      if fatal {
        isError := true;
        if answer == None {
          assert NulFree(DEFAULT_SPECIAL_ERROR);
          SetSpecialError(DEFAULT_SPECIAL_ERROR);
        }
      }
    }
  }
}

/** Collecting a response body in memory: a downloaded JSON text, and the answer to a POST request. */
module HttpBuffers {
  import opened Lists
  import opened OtaStream

  // ---------- the JSON text ----------

  /** `text` is the buffer with its terminator; there is none before the first piece and after an error. */
  datatype JsonBuf = JsonBuf(isError: bool, text: Option<seq<byte>>)

  const EMPTY := JsonBuf(false, None)

  function Zeros(n: nat): seq<byte> {
    Repeat(0, n)
  }

  /** Room for the announced length, or for what has been received if none was announced. */
  function Room(b: JsonBuf, size: nat, length: nat): seq<byte> {
    if b.text.None? then Zeros(if length == 0 then size + 1 else length + 1)
    else if length == 0 then b.text.value + Zeros(size)
    else b.text.value
  }

  predicate NeedsMemory(b: JsonBuf, length: nat) {
    b.text.None? || length == 0
  }

  function Put(room: seq<byte>, offset: nat, data: seq<byte>): seq<byte>
    requires offset + |data| < |room|
  {
    room[..offset] + data + [0] + room[offset + |data| + 1..]
  }

  /** One piece of a body that is not a redirect's; `offset` is what was received before. */
  function OnPiece(b: JsonBuf, data: seq<byte>, offset: nat, length: nat, memory: bool): JsonBuf {
    if b.isError then b
    else if !memory && NeedsMemory(b, length) then JsonBuf(true, None)
    else
      var room := Room(b, |data|, length);
      if offset + |data| >= |room| then JsonBuf(true, None) else JsonBuf(false, Some(Put(room, offset, data)))
  }

  /** A whole body, in any pieces, with enough memory. */
  function Collect(pieces: seq<seq<byte>>, length: nat): JsonBuf {
    if pieces == [] then EMPTY
    else
      var earlier := pieces[..|pieces| - 1];
      OnPiece(Collect(earlier, length), Last(pieces), |Flatten(earlier)|, length, true)
  }

  /** Without an announced length: the body and its terminator, nothing else. */
  lemma {:induction false} UnknownLengthCollects(pieces: seq<seq<byte>>)
    requires pieces != []
    ensures Collect(pieces, 0) == JsonBuf(false, Some(Flatten(pieces) + [0]))
    decreases |pieces|
  {
    var earlier := pieces[..|pieces| - 1];
    var before, data := Flatten(earlier), Last(pieces);
    if earlier != [] {
      UnknownLengthCollects(earlier);
      assert Room(Collect(earlier, 0), |data|, 0) == before + [0] + Zeros(|data|);
      assert (before + [0] + Zeros(|data|))[..|before|] == before;
      assert Put(before + [0] + Zeros(|data|), |before|, data) == before + data + [0];
    } else {
      assert before + data == data;
      assert Put(Zeros(|data| + 1), 0, data) == data + [0];
    }
  }

  /** With an announced length: the body and zeros up to that length if it is not exceeded, and an error if it is. */
  lemma {:induction false} KnownLengthCollects(pieces: seq<seq<byte>>, length: nat)
    requires pieces != [] && length > 0
    ensures var body := Flatten(pieces);
            Collect(pieces, length)
            == if |body| <= length then JsonBuf(false, Some(body + Zeros(length + 1 - |body|))) else JsonBuf(true, None)
    decreases |pieces|
  {
    var earlier := pieces[..|pieces| - 1];
    var before, data := Flatten(earlier), Last(pieces);
    var room := before + Zeros(if |before| <= length then length + 1 - |before| else 0);
    if earlier != [] {
      KnownLengthCollects(earlier, length);
    } else {
      assert room == Zeros(length + 1);
    }
    if |before| + |data| <= length {
      assert room[..|before|] == before;
      assert Put(room, |before|, data) == before + data + Zeros(length + 1 - |before| - |data|);
    }
  }

  class JsonDownload {
    var isError: bool
    var buf: array?<byte>

    ghost function View(): JsonBuf
      reads this, buf
    {
      JsonBuf(isError, if buf == null then None else Some(buf[..]))
    }

    constructor ()
      ensures View() == EMPTY && buf == null
    {
      isError, buf := false, null;
    }

    method Allocate(size: nat, length: nat)
      requires buf == null || length == 0
      modifies this`buf
      ensures buf != null && fresh(buf) && buf[..] == Room(old(View()), size, length)
    {
      ghost var before := View();
      var needed := if buf == null then (if length == 0 then size + 1 else length + 1) else buf.Length + size;
      var room := new byte[needed](_ => 0);
      if buf != null {
        forall i | 0 <= i < buf.Length {
          room[i] := buf[i];
        }
      }
      assert room[..] == Room(before, size, length);
      buf := room;
    }

    method Store(offset: nat, data: seq<byte>)
      requires buf != null && offset + |data| < buf.Length
      modifies buf
      ensures buf[..] == Put(old(buf[..]), offset, data)
    {
      forall i | 0 <= i < |data| {
        buf[offset + i] := data[i];
      }
      buf[offset + |data|] := 0;
    }

    /** The download callback; a redirect's body is ignored. */
    method OnData(data: seq<byte>, offset: nat, length: nat, redirect: bool, memory: bool) returns (ok: bool)
      modifies this, buf
      ensures View() == if redirect then old(View()) else OnPiece(old(View()), data, offset, length, memory)
      ensures ok == !isError
    {
      if isError {
        return false;
      }
      if redirect {
        return true;
      }
      if buf == null || length == 0 {
        if !memory {
          isError, buf := true, null;
          return false;
        }
        Allocate(|data|, length);
      }
      assert buf[..] == Room(old(View()), |data|, length);
      if offset + |data| >= buf.Length {
        isError, buf := true, null;
        return false;
      }
      Store(offset, data);
      ok := true;
    }
  }

  // ---------- the answer to a POST request ----------

  /** The first `length` bytes of the body, in any pieces. */
  function Kept(pieces: seq<seq<byte>>, length: nat): seq<byte> {
    Prefix(Flatten(pieces), length)
  }

  lemma KeptGrows(pieces: seq<seq<byte>>, data: seq<byte>, length: nat)
    ensures var before := Kept(pieces, length);
            Kept(pieces + [data], length) == before + Prefix(data, length - |before|)
  {
    assert (pieces + [data])[..|pieces|] == pieces;
    var body := Flatten(pieces);
    if |body| <= length {
      assert Prefix(body + data, length) == body + Prefix(data, length - |body|);
    } else {
      assert Prefix(body + data, length) == body[..length];
    }
  }

  class PostResponse {
    var contentLength: nat
    var offset: nat
    var buf: array?<byte>

    /** The offset never exceeds the announced length, and what was received is terminated. */
    ghost predicate Valid()
      reads this, buf
    {
      buf != null ==> buf.Length == contentLength + 1 && offset <= contentLength && buf[offset] == 0
    }

    ghost predicate Holds(pieces: seq<seq<byte>>)
      reads this, buf
    {
      buf != null && Valid() && buf[..offset] == Kept(pieces, contentLength)
    }

    constructor ()
      ensures Valid() && buf == null
    {
      contentLength, offset, buf := 0, 0, null;
    }

    method OnContentLength(length: nat, memory: bool)
      modifies this
      ensures Valid() && contentLength == length && (buf != null <==> memory)
      ensures memory ==> fresh(buf) && Holds([])
    {
      contentLength, offset := length, 0;
      buf := null;
      if memory {
        buf := new byte[length + 1];
        buf[0] := 0;
      }
    }

    method OnData(data: seq<byte>, ghost pieces: seq<seq<byte>>)
      requires Valid() && (buf != null ==> Holds(pieces))
      modifies this`offset, buf
      ensures Valid() && (buf != null ==> Holds(pieces + [data]))
    {
      if buf == null {
        return;
      }
      var remaining := contentLength - offset;
      var len := if |data| <= remaining then |data| else remaining;
      ghost var before := buf[..offset];
      forall i | 0 <= i < len {
        buf[offset + i] := data[i];
      }
      assert buf[..offset + len] == before + data[..len];
      offset := offset + len;
      buf[offset] := 0;
      KeptGrows(pieces, data, contentLength);
    }

    /** For any cut into pieces the buffer ends with the first Content-Length bytes of the body. */
    method Receive(length: nat, memory: bool, pieces: seq<seq<byte>>)
      modifies this, buf
      ensures Valid() && contentLength == length && (memory ==> Holds(pieces))
    {
      OnContentLength(length, memory);
      for i := 0 to |pieces|
        invariant Valid() && contentLength == length && (buf != null <==> memory) && (buf != null ==> fresh(buf))
        invariant buf != null ==> Holds(pieces[..i])
      {
        assert pieces[..i] + [pieces[i]] == pieces[..i + 1];
        OnData(pieces[i], pieces[..i]);
      }
      assert pieces[..|pieces|] == pieces;
    }
  }
}

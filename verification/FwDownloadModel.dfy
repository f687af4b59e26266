/** Downloading one file of a firmware update: up to five attempts, each of which may break off anywhere and is
    resumed with a range request. */
module FwDownloadModel {
  import opened Lists
  import opened OtaStream

  const MAX_RETRIES: nat := 5

  /** A piece of a response body as the callback sees it. `stored` is whether writing it succeeds, if it comes to
      that. */
  datatype Chunk = Chunk(code: nat, data: seq<byte>, stored: bool)

  /** One request: the pieces received, the response code in the end (502 if the connection broke), whether the
      network was found to be down after that and whether it came back in time. */
  datatype Attempt = Attempt(chunks: seq<Chunk>, code: nat, netDown: bool, netBack: bool)

  /** `written` is what the partition holds up to the write offset. `downloaded` counts received bytes; it is where
      the next request will start. */
  datatype Progress = Progress(written: seq<byte>, isError: bool, downloaded: nat)

  datatype Status = Failed | Success | Retry

  const START := Progress([], false, 0)

  predicate IsRedirect(code: nat) {
    code == 301 || code == 302
  }

  function ExpectedCode(rangeStart: nat): nat {
    if rangeStart != 0 then 206 else 200
  }

  /** The callback: every piece is counted, but the body of a redirect is not written. */
  function OnData(p: Progress, rangeStart: nat, c: Chunk): Progress {
    var counted := p.(downloaded := p.downloaded + |c.data|);
    if p.isError then counted
    else if c.code != ExpectedCode(rangeStart) then counted.(isError := !IsRedirect(c.code))
    else if c.stored then counted.(written := p.written + c.data)
    else counted.(isError := true)
  }

  function OnChunks(p: Progress, rangeStart: nat, chunks: seq<Chunk>): Progress {
    if chunks == [] then p else OnData(OnChunks(p, rangeStart, chunks[..|chunks| - 1]), rangeStart, Last(chunks))
  }

  function StatusOf(a: Attempt, rangeStart: nat): Status {
    if a.code == 200 || (rangeStart != 0 && a.code == 206) then Success
    else if a.code == 502 && a.netDown && a.netBack then Retry
    else Failed
  }

  function AfterAttempt(p: Progress, a: Attempt): Progress {
    OnChunks(p, p.downloaded, a.chunks)
  }

  /** The attempts in turn until one succeeds, one fails for good, or none is left. */
  function Download(p: Progress, attempts: seq<Attempt>): (Progress, bool)
    decreases |attempts|
  {
    if attempts == [] then (p, false)
    else
      var q := AfterAttempt(p, attempts[0]);
      match StatusOf(attempts[0], p.downloaded)
      case Success => (q, !q.isError)
      case Failed => (q, false)
      case Retry => Download(q, attempts[1..])
  }

  // ---------- what the server sends ----------

  /** The pieces received under one response code, put together. */
  function Body(chunks: seq<Chunk>, code: nat): seq<byte> {
    if chunks == [] then []
    else Body(chunks[..|chunks| - 1], code) + if Last(chunks).code == code then Last(chunks).data else []
  }

  function RedirectBytes(chunks: seq<Chunk>): nat {
    if chunks == [] then 0
    else RedirectBytes(chunks[..|chunks| - 1]) + if IsRedirect(Last(chunks).code) then |Last(chunks).data| else 0
  }

  function Rest(file: seq<byte>, start: nat): seq<byte> {
    if start <= |file| then file[start..] else []
  }

  /** The server has the file and honours ranges (section 4.1 of RFC 7233). What arrives is the beginning of what was
      asked for, and all of it if the request succeeds. */
  ghost predicate Honest(file: seq<byte>, a: Attempt, rangeStart: nat) {
    && Body(a.chunks, 200) <= file
    && Body(a.chunks, 206) <= Rest(file, rangeStart)
    && (a.code == 200 ==> Body(a.chunks, 200) == file)
    && (a.code == 206 ==> rangeStart <= |file| && Body(a.chunks, 206) == Rest(file, rangeStart))
  }

  ghost predicate HonestRun(file: seq<byte>, p: Progress, attempts: seq<Attempt>)
    decreases |attempts|
  {
    attempts == []
    || (Honest(file, attempts[0], p.downloaded) && HonestRun(file, AfterAttempt(p, attempts[0]), attempts[1..]))
  }

  /** Redirect bodies received in attempts that were then resumed. */
  function SkippedBytes(p: Progress, attempts: seq<Attempt>): nat
    decreases |attempts|
  {
    if attempts == [] || StatusOf(attempts[0], p.downloaded) != Retry then 0
    else RedirectBytes(attempts[0].chunks) + SkippedBytes(AfterAttempt(p, attempts[0]), attempts[1..])
  }

  // ---------- results ----------

  /** As long as there is no error an attempt appends what came under the expected code, and counts the redirects'
      bodies as well. */
  lemma {:induction false} ChunksEffect(p: Progress, rangeStart: nat, chunks: seq<Chunk>)
    requires !OnChunks(p, rangeStart, chunks).isError
    ensures var q := OnChunks(p, rangeStart, chunks);
            var body := Body(chunks, ExpectedCode(rangeStart));
            && !p.isError
            && q.written == p.written + body
            && q.downloaded == p.downloaded + |body| + RedirectBytes(chunks)
    decreases |chunks|
  {
    if chunks == [] {
    } else {
      ChunksEffect(p, rangeStart, chunks[..|chunks| - 1]);
    }
  }

  /** An error is final, whatever is still received. */
  lemma {:induction false} ErrorsAreFinal(p: Progress, attempts: seq<Attempt>)
    requires p.isError
    ensures !Download(p, attempts).1
    decreases |attempts|
  {
    if attempts != [] {
      var q := AfterAttempt(p, attempts[0]);
      if !q.isError {
        ChunksEffect(p, p.downloaded, attempts[0].chunks);
        assert false;
      }
      ErrorsAreFinal(q, attempts[1..]);
    }
  }

  /** The next request starts beyond the write offset by the redirects' bodies. */
  ghost predicate InStep(file: seq<byte>, p: Progress, skipped: nat) {
    && !p.isError
    && p.downloaded == |p.written| + skipped
    && (skipped == 0 ==> p.written <= file)
  }

  lemma AttemptKeepsStep(file: seq<byte>, p: Progress, a: Attempt, skipped: nat)
    requires InStep(file, p, skipped) && Honest(file, a, p.downloaded) && !AfterAttempt(p, a).isError
    ensures InStep(file, AfterAttempt(p, a), skipped + RedirectBytes(a.chunks))
  {
    ChunksEffect(p, p.downloaded, a.chunks);
    if skipped == 0 {
      var body := Body(a.chunks, ExpectedCode(p.downloaded));
      assert file == p.written + Rest(file, p.downloaded);
      assert body <= Rest(file, p.downloaded);
      assert p.written + body <= file;
    }
  }

  ghost predicate AllRetry(p: Progress, attempts: seq<Attempt>)
    decreases |attempts|
  {
    attempts == []
    || (StatusOf(attempts[0], p.downloaded) == Retry && AllRetry(AfterAttempt(p, attempts[0]), attempts[1..]))
  }

  function AfterAll(p: Progress, attempts: seq<Attempt>): Progress
    decreases |attempts|
  {
    if attempts == [] then p else AfterAll(AfterAttempt(p, attempts[0]), attempts[1..])
  }

  lemma {:induction false} ErrorStays(p: Progress, attempts: seq<Attempt>)
    requires p.isError
    ensures AfterAll(p, attempts).isError
    decreases |attempts|
  {
    if attempts != [] {
      var q := AfterAttempt(p, attempts[0]);
      if !q.isError {
        ChunksEffect(p, p.downloaded, attempts[0].chunks);
        assert false;
      }
      ErrorStays(q, attempts[1..]);
    }
  }

  lemma {:induction false} RetriesKeepStep(file: seq<byte>, p: Progress, attempts: seq<Attempt>, skipped: nat)
    requires InStep(file, p, skipped) && HonestRun(file, p, attempts) && AllRetry(p, attempts)
    requires !AfterAll(p, attempts).isError
    ensures InStep(file, AfterAll(p, attempts), skipped + SkippedBytes(p, attempts))
    decreases |attempts|
  {
    if attempts != [] {
      var q := AfterAttempt(p, attempts[0]);
      if q.isError {
        ErrorStays(q, attempts[1..]);
        assert false;
      }
      AttemptKeepsStep(file, p, attempts[0], skipped);
      RetriesKeepStep(file, q, attempts[1..], skipped + RedirectBytes(attempts[0].chunks));
    }
  }

  /** After any number of broken attempts without an error: the next request starts exactly at the write offset if and
      only if no redirect had a body, and then the partition holds the beginning of the file. */
  lemma ResumesAtOffsetIff(file: seq<byte>, attempts: seq<Attempt>)
    requires HonestRun(file, START, attempts) && AllRetry(START, attempts)
    requires !AfterAll(START, attempts).isError
    ensures var q := AfterAll(START, attempts);
            && (q.downloaded == |q.written| <==> SkippedBytes(START, attempts) == 0)
            && (SkippedBytes(START, attempts) == 0 ==> q.written <= file)
  {
    RetriesKeepStep(file, START, attempts, 0);
  }

  lemma {:induction false} BodyOfCode(chunks: seq<Chunk>, p: Progress, rangeStart: nat, code: nat)
    requires !OnChunks(p, rangeStart, chunks).isError && code != ExpectedCode(rangeStart) && !IsRedirect(code)
    ensures Body(chunks, code) == []
    decreases |chunks|
  {
    if chunks != [] {
      BodyOfCode(chunks[..|chunks| - 1], p, rangeStart, code);
      assert Last(chunks).code != code;
    }
  }

  lemma LastAttemptCompletes(file: seq<byte>, p: Progress, a: Attempt, skipped: nat)
    requires InStep(file, p, skipped) && Honest(file, a, p.downloaded) && file != []
    requires StatusOf(a, p.downloaded) == Success && !AfterAttempt(p, a).isError
    ensures var r := AfterAttempt(p, a);
            |r.written| + skipped == |file| && (skipped == 0 ==> r.written == file)
  {
    ChunksEffect(p, p.downloaded, a.chunks);
    if p.downloaded != 0 {
      if a.code == 200 {
        BodyOfCode(a.chunks, p, p.downloaded, 200);
        assert false;
      }
      assert file == file[..p.downloaded] + Rest(file, p.downloaded);
    }
  }

  /** A download that reports success wrote the file without as many bytes as there were in redirect bodies of
      attempts that broke off and were resumed: it wrote the file if and only if there were none. */
  lemma {:induction false} DownloadIsFileIff(file: seq<byte>, p: Progress, attempts: seq<Attempt>, skipped: nat)
    requires InStep(file, p, skipped) && HonestRun(file, p, attempts) && file != []
    requires Download(p, attempts).1
    ensures |Download(p, attempts).0.written| + skipped + SkippedBytes(p, attempts) == |file|
    ensures Download(p, attempts).0.written == file <==> skipped + SkippedBytes(p, attempts) == 0
    decreases |attempts|
  {
    var q := AfterAttempt(p, attempts[0]);
    if StatusOf(attempts[0], p.downloaded) == Success {
      LastAttemptCompletes(file, p, attempts[0], skipped);
    } else {
      if q.isError {
        ErrorsAreFinal(q, attempts[1..]);
        assert false;
      }
      AttemptKeepsStep(file, p, attempts[0], skipped);
      DownloadIsFileIff(file, q, attempts[1..], skipped + RedirectBytes(attempts[0].chunks));
    }
  }

  lemma SuccessfulDownload(file: seq<byte>, attempts: seq<Attempt>)
    requires HonestRun(file, START, attempts) && file != []
    requires Download(START, attempts).1
    ensures Download(START, attempts).0.written == file <==> SkippedBytes(START, attempts) == 0
  {
    DownloadIsFileIff(file, START, attempts, 0);
  }

  lemma OneChunk(p: Progress, rangeStart: nat, c: Chunk)
    ensures OnChunks(p, rangeStart, [c]) == OnData(p, rangeStart, c)
    ensures forall code :: Body([c], code) == if c.code == code then c.data else []
  {
    assert [c][..0] == [];
  }

  /** For any file of at least two bytes: a redirect with a body of one byte, the connection lost before the file
      itself, and an honest server is left with a download that succeeds and lacks the file's first byte. */
  lemma RedirectBodyLosesBytes(file: seq<byte>, junk: byte)
    requires 2 <= |file|
    ensures var attempts := [Attempt([Chunk(302, [junk], true)], 502, true, true),
                             Attempt([Chunk(206, file[1..], true)], 206, false, false)];
            && HonestRun(file, START, attempts)
            && Download(START, attempts) == (Progress(file[1..], false, |file|), true)
  {
    var first := Attempt([Chunk(302, [junk], true)], 502, true, true);
    var second := Attempt([Chunk(206, file[1..], true)], 206, false, false);
    var q := AfterAttempt(START, first);
    OneChunk(START, 0, Chunk(302, [junk], true));
    OneChunk(q, 1, Chunk(206, file[1..], true));
    assert AfterAttempt(q, second) == Progress(file[1..], false, |file|);
    assert [first, second][1..] == [second];
    assert [second][1..] == [];
    assert Body(second.chunks, 206) == file[1..];
    assert Honest(file, second, q.downloaded);
    assert Download(q, [second]) == (AfterAttempt(q, second), true);
  }
}

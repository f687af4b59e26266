/** Erasing a data partition and writing a downloaded file to it. */
module FwDownload {
  import opened Lists
  import opened OtaStream
  import opened FwDownloadModel

  predicate Erased(s: seq<byte>) {
    forall i :: 0 <= i < |s| ==> s[i] == FILL
  }

  function Patched(s: seq<byte>, at: nat, data: seq<byte>): seq<byte>
    requires at + |data| <= |s|
  {
    s[..at] + data + s[at + |data|..]
  }

  lemma PatchedParts(s: seq<byte>, at: nat, data: seq<byte>)
    requires at + |data| <= |s|
    ensures Patched(s, at, data)[..at + |data|] == s[..at] + data
    ensures Patched(s, at, data)[at + |data|..] == s[at + |data|..]
    ensures Erased(s[at..]) ==> Erased(s[at + |data|..])
  {
    assert s[at + |data|..] == s[at..][|data|..];
  }

  lemma ErasedExtends(before: seq<byte>, after: seq<byte>, start: nat)
    requires |before| == |after| && start + SECTOR <= |before|
    requires Erased(before[..start]) && after[..start] == before[..start]
    requires Erased(after[start..start + SECTOR]) && after[start + SECTOR..] == before[start + SECTOR..]
    ensures Erased(after[..start + SECTOR])
  {
    assert after[..start + SECTOR] == after[..start] + after[start..start + SECTOR];
  }

  /** One more attempt after others that were to be retried. */
  lemma {:induction false} DownloadSnoc(p: Progress, attempts: seq<Attempt>, a: Attempt)
    requires AllRetry(p, attempts)
    ensures var q := AfterAll(p, attempts);
            && AfterAll(p, attempts + [a]) == AfterAttempt(q, a)
            && (StatusOf(a, q.downloaded) == Retry ==> AllRetry(p, attempts + [a]))
            && (StatusOf(a, q.downloaded) == Success
                ==> Download(p, attempts + [a]) == (AfterAttempt(q, a), !AfterAttempt(q, a).isError))
            && (StatusOf(a, q.downloaded) == Failed ==> Download(p, attempts + [a]) == (AfterAttempt(q, a), false))
    decreases |attempts|
  {
    if attempts == [] {
      assert [a][1..] == [];
    } else {
      assert (attempts + [a])[1..] == attempts[1..] + [a];
      DownloadSnoc(AfterAttempt(p, attempts[0]), attempts[1..], a);
    }
  }

  lemma {:induction false} DownloadRunsOut(p: Progress, attempts: seq<Attempt>)
    requires AllRetry(p, attempts)
    ensures Download(p, attempts) == (AfterAll(p, attempts), false)
    decreases |attempts|
  {
    if attempts != [] {
      DownloadRunsOut(AfterAttempt(p, attempts[0]), attempts[1..]);
    }
  }

  class DataPartition {
    const flash: array<byte>
    var offset: nat
    var isError: bool
    var downloadedSize: nat

    ghost predicate Valid()
      reads this
    {
      offset <= flash.Length
    }

    ghost function View(): Progress
      requires Valid()
      reads this, flash
    {
      Progress(flash[..offset], isError, downloadedSize)
    }

    ghost predicate RestErased()
      requires Valid()
      reads this, flash
    {
      Erased(flash[offset..])
    }

    constructor (size: nat)
      ensures Valid() && fresh(flash) && flash.Length == size && View() == START
    {
      flash := new byte[size];
      offset, isError, downloadedSize := 0, false, 0;
    }

    /** The flash driver; a sector that could not be erased keeps its content. */
    method EraseSector(start: nat) returns (ok: bool)
      requires start + SECTOR <= flash.Length
      modifies flash
      ensures ok ==> Erased(flash[start..start + SECTOR])
      ensures flash[..start] == old(flash[..start])
      ensures flash[start + SECTOR..] == old(flash[start + SECTOR..])
    {
      ok := *;
      if ok {
        forall i | start <= i < start + SECTOR {
          flash[i] := FILL;
        }
      }
    }

    /** Sector by sector; stops at the first sector that cannot be erased. */
    method Erase(onlyFirstSector: bool) returns (ok: bool)
      requires flash.Length > 0
      modifies flash
      ensures flash.Length % SECTOR != 0 ==> !ok && flash[..] == old(flash[..])
      ensures ok && onlyFirstSector ==> Erased(flash[..SECTOR]) && flash[SECTOR..] == old(flash[SECTOR..])
      ensures ok && !onlyFirstSector ==> Erased(flash[..])
    {
      if flash.Length % SECTOR != 0 {
        return false;
      }
      var start := 0;
      while start < flash.Length
        invariant start <= flash.Length && start % SECTOR == 0
        invariant onlyFirstSector ==> start == 0
        invariant Erased(flash[..start])
        invariant flash[start..] == old(flash[..])[start..]
      {
        ghost var before := flash[..];
        ok := EraseSector(start);
        if !ok {
          return;
        }
        ErasedExtends(before, flash[..], start);
        assert before[start..][SECTOR..] == before[start + SECTOR..];
        assert old(flash[..])[start..][SECTOR..] == old(flash[..])[start + SECTOR..];
        start := start + SECTOR;
        if onlyFirstSector {
          break;
        }
      }
      ok := true;
    }

    /** The flash driver; a piece that does not fit or cannot be written changes nothing. */
    method PartitionWrite(data: seq<byte>) returns (ok: bool)
      requires Valid()
      modifies flash
      ensures ok ==> offset + |data| <= flash.Length
      ensures flash[..] == if ok then Patched(old(flash[..]), offset, data) else old(flash[..])
    {
      ok := *;
      ok := ok && offset + |data| <= flash.Length;
      if ok {
        forall i | 0 <= i < |data| {
          flash[offset + i] := data[i];
        }
        assert flash[..] == Patched(old(flash[..]), offset, data);
      }
    }

    method OnRecvData(code: nat, data: seq<byte>, rangeStart: nat) returns (stored: bool)
      requires Valid()
      modifies this, flash
      ensures Valid() && View() == OnData(old(View()), rangeStart, Chunk(code, data, stored))
      ensures old(RestErased()) ==> RestErased()
    {
      downloadedSize := downloadedSize + |data|;
      stored := false;
      if isError {
        return;
      }
      if code != ExpectedCode(rangeStart) {
        isError := !IsRedirect(code);
        return;
      }
      stored := PartitionWrite(data);
      if !stored {
        isError := true;
        return;
      }
      PatchedParts(old(flash[..]), offset, data);
      offset := offset + |data|;
    }

    /** One request: `pieces` are the codes and bodies in the order of arrival. */
    method Receive(pieces: seq<(nat, seq<byte>)>) returns (ghost chunks: seq<Chunk>)
      requires Valid()
      modifies this, flash
      ensures Valid() && View() == OnChunks(old(View()), old(downloadedSize), chunks)
      ensures |chunks| == |pieces|
      ensures forall i :: 0 <= i < |chunks| ==> chunks[i].code == pieces[i].0 && chunks[i].data == pieces[i].1
      ensures old(RestErased()) ==> RestErased()
    {
      var rangeStart := downloadedSize;
      chunks := [];
      for i := 0 to |pieces|
        invariant Valid() && |chunks| == i
        invariant forall k :: 0 <= k < i ==> chunks[k].code == pieces[k].0 && chunks[k].data == pieces[k].1
        invariant View() == OnChunks(old(View()), rangeStart, chunks)
        invariant old(RestErased()) ==> RestErased()
      {
        var stored := OnRecvData(pieces[i].0, pieces[i].1, rangeStart);
        ghost var chunk := Chunk(pieces[i].0, pieces[i].1, stored);
        assert (chunks + [chunk])[..|chunks|] == chunks;
        chunks := chunks + [chunk];
      }
    }

    /** What the network does in an attempt is not known before. */
    method Request() returns (pieces: seq<(nat, seq<byte>)>, code: nat, netDown: bool, netBack: bool) {
      pieces, code, netDown, netBack := *, *, *, *;
    }

    method DownloadWithRetries() returns (ok: bool, ghost attempts: seq<Attempt>)
      requires Valid()
      modifies this, flash
      ensures Valid() && (View(), ok) == Download(old(View()), attempts)
      ensures |attempts| <= MAX_RETRIES
      ensures old(RestErased()) ==> RestErased()
    {
      attempts := [];
      ghost var p0 := View();
      for retry := 0 to MAX_RETRIES
        invariant Valid() && |attempts| == retry
        invariant AllRetry(p0, attempts) && View() == AfterAll(p0, attempts)
        invariant old(RestErased()) ==> RestErased()
      {
        var rangeStart := downloadedSize;
        var pieces, code, netDown, netBack := Request();
        ghost var p := View();
        ghost var chunks := Receive(pieces);
        ghost var a := Attempt(chunks, code, netDown, netBack);
        assert View() == AfterAttempt(p, a);
        DownloadSnoc(p0, attempts, a);
        attempts := attempts + [a];
        if code == 200 || (rangeStart != 0 && code == 206) {
          ok := !isError;
          return;
        }
        if !(code == 502 && netDown && netBack) {
          ok := false;
          return;
        }
      }
      ok := false;
      DownloadRunsOut(p0, attempts);
    }

    /** Erases the partition and fills it from the network. */
    method Update() returns (ok: bool, ghost erased: bool, ghost attempts: seq<Attempt>)
      requires flash.Length > 0
      modifies this, flash
      ensures Valid() && |attempts| <= MAX_RETRIES
      ensures erased ==> RestErased() && Download(START, attempts) == (View(), ok)
      ensures !erased ==> !ok
    {
      offset, isError, downloadedSize := 0, false, 0;
      attempts := [];
      var done := Erase(false);
      erased := done;
      if !done {
        return false, erased, [];
      }
      assert flash[offset..] == flash[..];
      ok, attempts := DownloadWithRetries();
    }
  }

  /** What a successful update leaves in the partition when no redirect had a body: the file, and nothing else. */
  lemma UpdatedPartitionHoldsFile(content: seq<byte>, offset: nat, file: seq<byte>, attempts: seq<Attempt>)
    requires offset <= |content| && Erased(content[offset..]) && file != []
    requires HonestRun(file, START, attempts) && SkippedBytes(START, attempts) == 0
    requires Download(START, attempts).1
    requires Download(START, attempts).0.written == content[..offset]
    ensures |file| == offset && content[..|file|] == file && Erased(content[|file|..])
  {
    SuccessfulDownload(file, attempts);
  }
}

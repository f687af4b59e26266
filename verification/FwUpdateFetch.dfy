/** Downloading into a partition: it is the download of FwDownloadModel, with the writes of the image writer. */
module FwUpdateFetch {
  import opened Lists
  import opened OtaStream
  import opened OtaWriterModel
  import opened FwDownloadModel
  import opened FwUpdateModel
  import opened FwUpdateTrace

  // ---------- what the download protocol sees ----------

  lemma FlattenSnoc(chunks: seq<seq<byte>>, chunk: seq<byte>)
    ensures Flatten(chunks + [chunk]) == Flatten(chunks) + chunk
  {
    assert (chunks + [chunk])[..|chunks|] == chunks;
  }

  lemma PieceIsData(env: Env, target: Target, s: Sink, rangeStart: nat, p: Piece)
    requires SinkReady(s)
    ensures var s' := ReceivePiece(env, target, s, rangeStart, p);
            ProgressOf(s') == OnData(ProgressOf(s), rangeStart, Chunk(p.code, p.data, !s'.isError))
  {
    FlattenSnoc(s.stored, p.data);
  }

  lemma {:induction false} PiecesAreChunks(env: Env, target: Target, s: Sink, rangeStart: nat, pieces: seq<Piece>)
    requires SinkReady(s)
    ensures ProgressOf(ReceivePieces(env, target, s, rangeStart, pieces))
         == OnChunks(ProgressOf(s), rangeStart, ChunksOf(env, target, s, rangeStart, pieces))
    decreases |pieces|
  {
    if pieces == [] {
    } else {
      var earlier := pieces[..|pieces| - 1];
      PiecesAreChunks(env, target, s, rangeStart, earlier);
      PieceIsData(env, target, ReceivePieces(env, target, s, rangeStart, earlier), rangeStart, Last(pieces));
      var chunks := ChunksOf(env, target, s, rangeStart, pieces);
      assert chunks[..|chunks| - 1] == ChunksOf(env, target, s, rangeStart, earlier);
    }
  }

  /** Fetching a file is a download; whether a piece is stored is what the writer and the flash make of it. */
  lemma {:induction false} FetchIsDownload(env: Env, target: Target, s: Sink, requests: seq<Request>)
    requires SinkReady(s)
    ensures var f := Fetch(env, target, s, requests);
            (ProgressOf(f.sink), f.ok) == Download(ProgressOf(s), f.attempts)
    decreases |requests|
  {
    if requests == [] {
    } else {
      var a := AttemptOf(env, target, s, requests[0]);
      var s' := ReceivePieces(env, target, s, s.downloaded, requests[0].pieces);
      PiecesAreChunks(env, target, s, s.downloaded, requests[0].pieces);
      assert ProgressOf(s') == AfterAttempt(ProgressOf(s), a);
      assert [a][1..] == [];
      if StatusOf(a, s.downloaded) == Retry {
        FetchIsDownload(env, target, s', requests[1..]);
        var rest := Fetch(env, target, s', requests[1..]).attempts;
        assert ([a] + rest)[1..] == rest;
      }
    }
  }

  // ---------- what it does to flash ----------

  lemma PieceContinues(env: Env, target: Target, s: Sink, rangeStart: nat, p: Piece)
    requires SinkReady(s)
    ensures Continues(s.trace, ReceivePiece(env, target, s, rangeStart, p).trace, target.part)
  {
    if !s.isError {
      WriteAllContinues(env, s.trace, target.part, Plan(target.encrypted, s.writer, p.data));
    }
  }

  lemma {:induction false} PiecesContinue(env: Env, target: Target, s: Sink, rangeStart: nat, pieces: seq<Piece>)
    requires SinkReady(s)
    ensures Continues(s.trace, ReceivePieces(env, target, s, rangeStart, pieces).trace, target.part)
    decreases |pieces|
  {
    if pieces == [] {
    } else {
      var earlier := pieces[..|pieces| - 1];
      PiecesContinue(env, target, s, rangeStart, earlier);
      PieceContinues(env, target, ReceivePieces(env, target, s, rangeStart, earlier), rangeStart, Last(pieces));
    }
  }

  lemma {:induction false} FetchContinues(env: Env, target: Target, s: Sink, requests: seq<Request>)
    requires SinkReady(s)
    ensures Continues(s.trace, Fetch(env, target, s, requests).sink.trace, target.part)
    decreases |requests|
  {
    if requests == [] {
    } else {
      PiecesContinue(env, target, s, s.downloaded, requests[0].pieces);
      var s' := ReceivePieces(env, target, s, s.downloaded, requests[0].pieces);
      FetchContinues(env, target, s', requests[1..]);
    }
  }

  /** Until there is an error, the writer has taken all stored pieces, and flash has had their writes since `t0`. */
  ghost predicate Intact(target: Target, t0: Trace, s: Sink) {
    !s.isError ==>
      && s.writer == AfterChunks(target.encrypted, s.stored)
      && s.trace == t0 + Placed(target.part, AllWrites(target.encrypted, s.stored))
  }

  lemma StoreIntact(env: Env, target: Target, t0: Trace, s: Sink, data: seq<byte>)
    requires SinkReady(s) && !s.isError && Intact(target, t0, s)
    ensures Intact(target, t0, Store(env, target, s, data))
  {
    if !Store(env, target, s, data).isError {
      var plan := Plan(target.encrypted, s.writer, data);
      var stored := s.stored + [data];
      assert stored[..|stored| - 1] == s.stored;
      WriteAllOkIff(env, s.trace, target.part, plan);
      PlacedAppend(target.part, AllWrites(target.encrypted, s.stored), plan);
    }
  }

  lemma PieceIntact(env: Env, target: Target, t0: Trace, s: Sink, rangeStart: nat, p: Piece)
    requires SinkReady(s) && Intact(target, t0, s)
    ensures Intact(target, t0, ReceivePiece(env, target, s, rangeStart, p))
  {
    if !s.isError {
      StoreIntact(env, target, t0, s.(downloaded := s.downloaded + |p.data|), p.data);
    }
  }

  lemma {:induction false} PiecesIntact(env: Env, target: Target, t0: Trace, s: Sink, rangeStart: nat,
                                        pieces: seq<Piece>)
    requires SinkReady(s) && Intact(target, t0, s)
    ensures Intact(target, t0, ReceivePieces(env, target, s, rangeStart, pieces))
    decreases |pieces|
  {
    if pieces == [] {
    } else {
      var earlier := pieces[..|pieces| - 1];
      PiecesIntact(env, target, t0, s, rangeStart, earlier);
      PieceIntact(env, target, t0, ReceivePieces(env, target, s, rangeStart, earlier), rangeStart, Last(pieces));
    }
  }

  lemma {:induction false} FetchIntact(env: Env, target: Target, t0: Trace, s: Sink, requests: seq<Request>)
    requires SinkReady(s) && Intact(target, t0, s)
    ensures Intact(target, t0, Fetch(env, target, s, requests).sink)
    decreases |requests|
  {
    if requests == [] {
    } else {
      PiecesIntact(env, target, t0, s, s.downloaded, requests[0].pieces);
      var s' := ReceivePieces(env, target, s, s.downloaded, requests[0].pieces);
      FetchIntact(env, target, t0, s', requests[1..]);
    }
  }

  lemma {:induction false} SuccessHasNoError(env: Env, target: Target, s: Sink, requests: seq<Request>)
    requires SinkReady(s) && Fetch(env, target, s, requests).ok
    ensures !Fetch(env, target, s, requests).sink.isError
    decreases |requests|
  {
    var s' := ReceivePieces(env, target, s, s.downloaded, requests[0].pieces);
    if StatusOf(AttemptOf(env, target, s, requests[0]), s.downloaded) == Retry {
      SuccessHasNoError(env, target, s', requests[1..]);
    }
  }

  /** A whole download: it is a download from the start, it touches nothing but the partition, and if it succeeds
      exactly the writes of the stored pieces were made. */
  lemma WholeFetch(env: Env, target: Target, t: Trace, source: Source)
    ensures var t1 := ErasePartition(env, t, target.part, false).0;
            var f := FetchAll(env, target, t, source);
            && (ProgressOf(f.sink), f.ok) == Download(START, f.attempts)
            && Continues(t1, f.sink.trace, target.part)
            && (f.ok ==>
                  && f.sink.writer == AfterChunks(target.encrypted, f.sink.stored)
                  && f.sink.trace == t1 + Placed(target.part, AllWrites(target.encrypted, f.sink.stored)))
  {
    var t1 := ErasePartition(env, t, target.part, false).0;
    var requests := Prefix(source.requests, MAX_RETRIES);
    FetchIsDownload(env, target, StartAt(t1), requests);
    FetchContinues(env, target, StartAt(t1), requests);
    assert t1 + [] == t1;
    FetchIntact(env, target, t1, StartAt(t1), requests);
    if FetchAll(env, target, t, source).ok {
      SuccessHasNoError(env, target, StartAt(t1), requests);
    }
  }
}

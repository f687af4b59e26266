/** The update task, step by step, with every flash operation logged. */
module FwUpdate {
  import opened Lists
  import opened OtaSeq
  import opened OtaData
  import opened OtaStream
  import opened OtaWriterModel
  import opened FwDownloadModel
  import opened FwUpdateModel
  import opened FwUpdateSafety
  import opened FwUpdateContents

  datatype Stage = StageNone | Stage1 | Stage2 | Stage3 | Stage4

  lemma FetchStep(env: Env, target: Target, s: Sink, requests: seq<Request>)
    requires SinkReady(s) && requests != []
    ensures var s' := ReceivePieces(env, target, s, s.downloaded, requests[0].pieces);
            var r := requests[0];
            var f := Fetch(env, target, s, requests);
            if r.code == 200 || (s.downloaded != 0 && r.code == 206) then f.sink == s' && f.ok == !s'.isError
            else if r.code == 502 && r.netDown && r.netBack then
              var rest := Fetch(env, target, s', requests[1..]); f.sink == rest.sink && f.ok == rest.ok
            else f.sink == s' && !f.ok
  {
  }

  /** What the boot switch comes to, step by step. */
  lemma SwitchSteps(crc: Crc, env: Env, t: Trace, o: Record, running: nat)
    requires running < SLOTS && env.verifiesAgain && env.recordFound
    ensures var p := SwitchPlan(crc, o, Some(running), 1 - running, SLOTS);
            var erases, writes := |t| !in env.failing, |t| + 1 !in env.failing;
            var t1 := t + [Erase(EntrySector(p.index), erases)];
            SwitchBoot(crc, env, t, o, running)
            == if !erases then SwitchResult(t1, if env.erasedAnyway then o[p.index := ERASED] else o, false)
               else SwitchResult(t1 + [WriteEntry(EntrySector(p.index), writes)],
                                 o[p.index := if writes then p.entry else ERASED], writes)
  {
    assert forall a: Op, b: Op :: (t + [a]) + [b] == t + ([a] + [b]);
  }

  class FwUpdate {
    const env: Env
    const next: Bank
    var flashLog: Trace
    var stage: Stage
    var isOta0Active: bool

    // the download in progress
    var writer: Writer
    var isError: bool
    var downloadedSize: nat
    ghost var stored: seq<seq<byte>>

    constructor (env: Env, next: Bank, isOta0Active: bool)
      ensures this.env == env && this.next == next && this.isOta0Active == isOta0Active
      ensures flashLog == [] && stage.StageNone?
    {
      this.env := env;
      this.next := next;
      this.isOta0Active := isOta0Active;
      flashLog, stage := [], StageNone;
      writer, isError, downloadedSize := FRESH, false, 0;
      stored := [];
    }

    function RunningSlot(): (slot: nat)
      reads this
      ensures slot < SLOTS
    {
      if isOta0Active then 0 else 1
    }

    ghost function View(): Sink
      reads this
    {
      Sink(flashLog, writer, stored, isError, downloadedSize)
    }

    method EraseSectorAt(part: Region, offset: nat) returns (ok: bool)
      modifies this`flashLog
      ensures ok == (|old(flashLog)| !in env.failing)
      ensures flashLog == old(flashLog) + [Erase(Sector(part, offset), ok)]
    {
      ok := |flashLog| !in env.failing;
      flashLog := flashLog + [Erase(Sector(part, offset), ok)];
    }

    method EraseWithSleep(part: Region, onlyFirstSector: bool) returns (ok: bool)
      modifies this`flashLog
      ensures (flashLog, ok) == ErasePartition(env, old(flashLog), part, onlyFirstSector)
    {
      if part.size % SECTOR != 0 {
        return false;
      }
      var offset := 0;
      while offset < part.size
        invariant offset <= part.size && offset % SECTOR == 0
        invariant EraseFrom(env, flashLog, part, offset, onlyFirstSector)
               == EraseFrom(env, old(flashLog), part, 0, onlyFirstSector)
        decreases part.size - offset
      {
        ok := EraseSectorAt(part, offset);
        if !ok {
          return;
        }
        offset := offset + SECTOR;
        if onlyFirstSector {
          break;
        }
      }
      ok := true;
    }

    method PartitionWrite(part: Region, b: BlockWrite) returns (ok: bool)
      modifies this`flashLog
      ensures (flashLog, ok) == WriteBlock(env, old(flashLog), part, b)
    {
      if b.offset + |b.data| > part.size {
        return false;
      }
      ok := |flashLog| !in env.failing;
      flashLog := flashLog + [Write(part.addr + b.offset, b.data, ok)];
    }

    /** Makes planned writes up to the first that fails. */
    method WritePlanned(part: Region, plan: seq<BlockWrite>) returns (done: nat)
      modifies this`flashLog
      ensures (flashLog, done) == WriteAll(env, old(flashLog), part, plan)
    {
      done := 0;
      ghost var all := WriteAll(env, flashLog, part, plan);
      while done < |plan|
        invariant done <= |plan|
        invariant var rest := WriteAll(env, flashLog, part, plan[done..]); all == (rest.0, rest.1 + done)
      {
        assert plan[done..][1..] == plan[done + 1..];
        var ok := PartitionWrite(part, plan[done]);
        if !ok {
          return;
        }
        done := done + 1;
      }
    }

    /** The writer, with the writes it plans; an application image must start with its magic byte. */
    method WriteData(target: Target, data: seq<byte>) returns (ok: bool)
      requires SinkReady(View()) && !isError
      modifies this`flashLog, this`writer
      ensures var s' := Store(env, target, old(View()), data);
              flashLog == s'.trace && writer == s'.writer && ok == !s'.isError
              && (ok ==> s'.stored == stored + [data]) && (!ok ==> s'.stored == stored)
    {
      if target.image && Refuses(writer, data) {
        return false;
      }
      var plan := Plan(target.encrypted, writer, data);
      var done := WritePlanned(target.part, plan);
      writer := OnWrite(target.encrypted, writer, data, done);
      ok := done == |plan|;
    }

    /** The download callback: once there was an error, further data is dropped. */
    method OnRecvData(target: Target, rangeStart: nat, p: Piece)
      requires SinkReady(View())
      modifies this`flashLog, this`writer, this`isError, this`downloadedSize, this`stored
      ensures View() == ReceivePiece(env, target, old(View()), rangeStart, p)
    {
      downloadedSize := downloadedSize + |p.data|;
      if isError {
        return;
      }
      if p.code != ExpectedCode(rangeStart) {
        isError := !IsRedirect(p.code);
        return;
      }
      var ok := WriteData(target, p.data);
      if ok {
        stored := stored + [p.data];
      } else {
        isError := true;
      }
    }

    method Receive(target: Target, pieces: seq<Piece>)
      requires SinkReady(View())
      modifies this`flashLog, this`writer, this`isError, this`downloadedSize, this`stored
      ensures View() == ReceivePieces(env, target, old(View()), old(downloadedSize), pieces)
    {
      var rangeStart := downloadedSize;
      for i := 0 to |pieces|
        invariant View() == ReceivePieces(env, target, old(View()), rangeStart, pieces[..i])
      {
        assert pieces[..i + 1][..i] == pieces[..i];
        OnRecvData(target, rangeStart, pieces[i]);
      }
      assert pieces[..|pieces|] == pieces;
    }

    /** At most five requests, each starting at the number of bytes received so far. */
    method DownloadWithRetries(target: Target, requests: seq<Request>) returns (ok: bool)
      requires SinkReady(View())
      modifies this`flashLog, this`writer, this`isError, this`downloadedSize, this`stored
      ensures var f := Fetch(env, target, old(View()), Prefix(requests, MAX_RETRIES)); f.sink == View() && f.ok == ok
    {
      ghost var given := Prefix(requests, MAX_RETRIES);
      ghost var all := Fetch(env, target, View(), given);
      var retry := 0;
      while retry < MAX_RETRIES && retry < |requests|
        invariant retry <= |given| && SinkReady(View())
        invariant var f := Fetch(env, target, View(), given[retry..]); f.sink == all.sink && f.ok == all.ok
      {
        ghost var rest := given[retry..];
        assert rest[0] == requests[retry] && rest[1..] == given[retry + 1..];
        FetchStep(env, target, View(), rest);
        var rangeStart, request := downloadedSize, requests[retry];
        Receive(target, request.pieces);
        if request.code == 200 || (rangeStart != 0 && request.code == 206) {
          return !isError;
        }
        if !(request.code == 502 && request.netDown && request.netBack) {
          return false;
        }
        retry := retry + 1;
      }
      ok := false;
    }

    /** Downloads a file into an erased partition. */
    method Download(target: Target, source: Source) returns (ok: bool)
      modifies this`flashLog, this`writer, this`isError, this`downloadedSize, this`stored
      ensures var f := Fetch(env, target, StartAt(old(flashLog)), Prefix(source.requests, MAX_RETRIES));
              f.sink == View() && f.ok == ok
    {
      writer, isError, downloadedSize := FRESH, false, 0;
      stored := [];
      ok := DownloadWithRetries(target, source.requests);
    }

    method EndOta(part: Region) returns (ok: bool)
      requires |writer.tail| <= BLOCK
      modifies this`flashLog
      ensures (flashLog, ok) == EndImage(env, old(flashLog), part, writer)
    {
      if writer.wrote == 0 {
        return false;
      }
      var done := WritePlanned(part, FinalBlock(writer));
      ok := done == |FinalBlock(writer)|;
    }

    method UpdateOta(pendingVerify: bool) returns (ok: bool)
      modifies this`flashLog, this`writer, this`isError, this`downloadedSize, this`stored
      ensures (flashLog, ok) == UpdateApp(env, old(flashLog), next.app, pendingVerify)
    {
      if next.app.None? || !env.app.url || pendingVerify {
        return false;
      }
      var part := next.app.value;
      ok := EraseWithSleep(part, false);
      if !ok || !env.app.memory {
        return false;
      }
      var done := Download(AppTarget(env, part), env.app);
      var ended := EndOta(part);
      if !done {
        return false;
      }
      ok := ended && env.imageVerifies && env.keyMatches;
    }

    method UpdateDataPartition(part: Option<Region>, source: Source) returns (ok: bool)
      modifies this`flashLog, this`writer, this`isError, this`downloadedSize, this`stored
      ensures (flashLog, ok) == UpdateData(env, old(flashLog), part, source)
    {
      if part.None? || !source.url {
        return false;
      }
      ok := EraseWithSleep(part.value, false);
      if !ok {
        return;
      }
      ok := Download(DataTarget(part.value), source);
    }

    method RunActions(pendingVerify: bool) returns (ok: bool)
      requires flashLog == []
      modifies this`flashLog, this`stage, this`writer, this`isError, this`downloadedSize, this`stored
      ensures (flashLog, ok) == DoActions(env, next, pendingVerify)
      ensures ok ==> stage.Stage4?
    {
      stage := Stage1;
      ok := UpdateOta(pendingVerify);
      if !ok {
        return;
      }
      stage := Stage2;
      ok := UpdateDataPartition(next.gwui, env.gwui);
      if !ok {
        return;
      }
      stage := Stage3;
      ok := UpdateDataPartition(next.nrf52, env.nrf52);
      if !ok {
        return;
      }
      stage := Stage4;
      ok := env.nrf52Flashed;
    }

    method InvalidatePartition(part: Option<Region>)
      modifies this`flashLog
      ensures flashLog == Invalidate(env, old(flashLog), part)
    {
      if part.Some? {
        var _ := EraseWithSleep(part.value, true);
      }
    }

    method InvalidateAllNext()
      modifies this`flashLog
      ensures flashLog == InvalidateAll(env, old(flashLog), next)
    {
      if !env.unconfirmed {
        InvalidatePartition(next.app);
      }
      InvalidatePartition(next.gwui);
      InvalidatePartition(next.nrf52);
    }

    method EraseEntry(index: nat) returns (ok: bool)
      modifies this`flashLog
      ensures ok == (|old(flashLog)| !in env.failing)
      ensures flashLog == old(flashLog) + [Erase(EntrySector(index), ok)]
    {
      ok := |flashLog| !in env.failing;
      flashLog := flashLog + [Erase(EntrySector(index), ok)];
    }

    method WriteNewEntry(index: nat) returns (ok: bool)
      modifies this`flashLog
      ensures ok == (|old(flashLog)| !in env.failing)
      ensures flashLog == old(flashLog) + [WriteEntry(EntrySector(index), ok)]
    {
      ok := |flashLog| !in env.failing;
      flashLog := flashLog + [WriteEntry(EntrySector(index), ok)];
    }

    /** Sets the boot partition to the slot that is not running. */
    method SetBootPartition(crc: Crc, o: Record) returns (ok: bool, record: Record)
      modifies this`flashLog
      ensures SwitchResult(flashLog, record, ok) == SwitchBoot(crc, env, old(flashLog), o, RunningSlot())
    {
      if !env.verifiesAgain || !env.recordFound {
        return false, o;
      }
      SwitchSteps(crc, env, flashLog, o, RunningSlot());
      var p := SwitchPlan(crc, o, Some(RunningSlot()), 1 - RunningSlot(), SLOTS);
      ok := EraseEntry(p.index);
      if !ok {
        record := if env.erasedAnyway then o[p.index := ERASED] else o;
        return;
      }
      ok := WriteNewEntry(p.index);
      record := o[p.index := if ok then p.entry else ERASED];
    }

    /** The boot switch, and invalidation if that or anything before it failed. */
    method FinishUpdate(crc: Crc, o: Record, done: bool) returns (ok: bool, record: Record)
      modifies this`flashLog, this`isOta0Active
      ensures Result(ok, done, flashLog, record)
           == Finish(crc, env, o, old(RunningSlot()), next, old(flashLog), done)
      ensures RunningSlot() == if ok then 1 - old(RunningSlot()) else old(RunningSlot())
    {
      ok, record := done, o;
      if done {
        ok, record := SetBootPartition(crc, o);
      }
      if !ok {
        InvalidateAllNext();
      } else {
        isOta0Active := !isOta0Active;
      }
    }

    /** The whole task. Whatever happens, the log, the record and the answer are those of the specification; the
        running slot is taken to have changed only if all went well, and then, unless the servers are to blame, the new
        slot holds their files. */
    method Task(crc: Crc, o: Record, ghost files: Files) returns (ok: bool, record: Record)
      requires flashLog == []
      modifies this
      ensures var r := Run(crc, env, o, old(RunningSlot()), next);
              ok == r.ok && record == r.record && flashLog == r.trace
      ensures stage.Stage4?
      ensures RunningSlot() == if ok then 1 - old(RunningSlot()) else old(RunningSlot())
      ensures ok && ServersBehave(env, next, files) && BankApart(next) && AwayFromRecord(next) ==>
                HoldsFiles(env, flashLog, next, files)
    {
      var done := RunActions(PendingVerifyNow(crc, o, RunningSlot()));
      stage := Stage4;
      ok, record := FinishUpdate(crc, o, done);
      if ok && ServersBehave(env, next, files) && BankApart(next) && AwayFromRecord(next) {
        UpdatedSlotHoldsFiles(crc, env, o, 1 - RunningSlot(), next, files);
      }
    }
  }

  // ---------- the wear-levelling area of the nRF52 file system ----------

  const WL_BUFFER: nat := 512

  /** Compares the end of the partition with the reference in pieces; `readable` tells which reads succeed. */
  method CompareWlArea(flash: array<bv8>, reference: seq<bv8>, readable: nat -> bool) returns (ok: bool, isValid: bool)
    requires |reference| <= flash.Length
    ensures ok ==> (isValid <==> flash[flash.Length - |reference|..] == reference)
    ensures !ok ==> !isValid && exists offset: nat :: offset < |reference| && !readable(offset)
  {
    var base := flash.Length - |reference|;
    isValid := false;
    var offset := 0;
    while offset < |reference|
      invariant offset <= |reference|
      invariant flash[base..base + offset] == reference[..offset]
    {
      var chunk := if offset + WL_BUFFER < |reference| then WL_BUFFER else |reference| - offset;
      if !readable(offset) {
        return false, false;
      }
      var buffer := flash[base + offset..base + offset + chunk];
      if buffer != reference[offset..offset + chunk] {
        assert flash[base..][offset..offset + chunk] == buffer;
        break;
      }
      assert reference[..offset + chunk] == reference[..offset] + reference[offset..offset + chunk];
      assert flash[base..base + offset + chunk] == flash[base..base + offset] + buffer;
      offset := offset + chunk;
    }
    if offset == |reference| {
      assert flash[base..] == flash[base..base + offset];
      isValid := true;
    }
    ok := true;
  }

  /** Puts the reference back at the end of the partition if it is not there; the rest stays as it is. `memory` is for
      the buffer to compare with. */
  method RestoreWlArea(flash: array<bv8>, reference: seq<bv8>, memory: bool, readable: nat -> bool, erases: bool,
                       writes: bool)
    returns (ok: bool)
    modifies flash
    ensures ok ==> |reference| <= flash.Length && flash[flash.Length - |reference|..] == reference
    ensures |reference| <= flash.Length ==>
              flash[..flash.Length - |reference|] == old(flash[..flash.Length - |reference|])
    ensures ok || |reference| > flash.Length || !memory || !erases || !writes
            || exists offset: nat :: offset < |reference| && !readable(offset)
    ensures (forall offset: nat :: offset < |reference| ==> readable(offset)) ==>
              (ok <==> && |reference| <= flash.Length && memory
                       && (old(flash[flash.Length - |reference|..]) == reference || (erases && writes)))
  {
    if |reference| > flash.Length {
      return false;
    }
    if !memory {
      return false;
    }
    var base := flash.Length - |reference|;
    var isValid;
    ok, isValid := CompareWlArea(flash, reference, readable);
    if !ok || isValid {
      return;
    }
    if !erases {
      return false;
    }
    forall i | base <= i < flash.Length {
      flash[i] := 0xFF;
    }
    if !writes {
      return false;
    }
    forall i | base <= i < flash.Length {
      flash[i] := reference[i - base];
    }
    ok := true;
  }
}

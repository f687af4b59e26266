/** Writing an application image to its partition, in place. With flash encryption on, only whole blocks can be written,
    so an incomplete one waits in a cache. */
module OtaWriter {
  import opened Lists
  import opened OtaStream
  import opened OtaWriterModel

  datatype Result = Ok | InvalidMagic | FlashError | NothingWritten | InvalidState | ImageRejected | NoMemory

  /** What a call that fills the cache comes to. */
  lemma PlanThroughCache(encrypted: bool, w: Writer, data: seq<byte>, log: seq<BlockWrite>)
    requires OtaWriterModel.Ready(w) && w.tail != [] && !Waits(w, data)
    ensures var plan := Plan(encrypted, w, data);
            var filled, rest := [BlockWrite(w.wrote, Filled(w, data))], Rest(w, data);
            var w' := Writer(w.wrote + BLOCK, [], true);
            && |plan| == 2
            && log + filled == log + plan[..1]
            && log + filled + PlanRest(encrypted, w.wrote + BLOCK, rest) == log + plan[..2]
            && OnWrite(encrypted, w, data, 1) == AfterRest(encrypted, w', rest, false)
            && OnWrite(encrypted, w, data, 2) == AfterRest(encrypted, w', rest, true)
  {
    PlanCases(encrypted, w, data);
  }

  class OtaWriter {
    const encrypted: bool
    const flash: array<byte>
    const partialData: array<byte>
    var wroteSize: nat
    var partialBytes: nat
    ghost var completed: bool             // some block was completed in the cache
    ghost var log: seq<BlockWrite>        // every write that succeeded

    ghost predicate Layout()
      reads this
    {
      partialData.Length == BLOCK && partialBytes <= BLOCK && wroteSize <= flash.Length && flash != partialData
    }

    /** Flash was written from the start without gaps, and in whole blocks if it is encrypted. */
    ghost predicate Contiguous()
      requires Layout()
      reads this, flash
    {
      InOrder(log) && Payload(log) == flash[..wroteSize] && (encrypted ==> Leftover(wroteSize) == 0)
    }

    /** The unused rest of the cache holds padding, never earlier payload. */
    ghost predicate RestIsPadding()
      requires Layout()
      reads this, partialData
    {
      forall i :: partialBytes <= i < BLOCK ==> partialData[i] == PadByte(completed)
    }

    /** What every call keeps, even one that fails. */
    ghost predicate Consistent()
      reads this, flash, partialData
    {
      Layout() && Contiguous() && RestIsPadding() && (!encrypted ==> partialBytes == 0)
    }

    ghost predicate Valid()
      reads this, flash, partialData
    {
      Consistent() && partialBytes < BLOCK
    }

    ghost function View(): Writer
      requires Layout()
      reads this, partialData
    {
      Writer(wroteSize, partialData[..partialBytes], completed)
    }

    constructor (encrypted: bool, size: nat)
      ensures Valid() && fresh(flash) && fresh(partialData) && this.encrypted == encrypted
      ensures View() == FRESH && log == [] && flash.Length == size
    {
      this.encrypted := encrypted;
      flash := new byte[size](_ => FILL);
      partialData := new byte[BLOCK](_ => 0);
      wroteSize, partialBytes := 0, 0;
      completed, log := false, [];
    }

    /** The flash driver. A failed write may damage the range it was to write, nothing before it. */
    method PartitionWrite(offset: nat, data: seq<byte>) returns (ok: bool)
      requires encrypted ==> Leftover(offset) == 0 && Leftover(|data|) == 0
      modifies flash
      ensures ok ==> offset + |data| <= flash.Length && flash[offset..offset + |data|] == data
      ensures offset <= flash.Length ==> flash[..offset] == old(flash[..offset])
    {
      ok := *;
      ok := ok && offset + |data| <= flash.Length;
      if ok {
        forall i | 0 <= i < |data| {
          flash[offset + i] := data[i];
        }
      }
    }

    /** Writes at the end of what was written and moves the end. */
    method Append(data: seq<byte>) returns (ok: bool)
      requires Layout() && Contiguous() && (encrypted ==> Leftover(|data|) == 0)
      modifies flash, this`wroteSize, this`log
      ensures Layout() && Contiguous()
      ensures wroteSize == if ok then old(wroteSize) + |data| else old(wroteSize)
      ensures log == if ok then old(log) + [BlockWrite(old(wroteSize), data)] else old(log)
    {
      ok := PartitionWrite(wroteSize, data);
      if ok {
        assert flash[..wroteSize + |data|] == flash[..wroteSize] + flash[wroteSize..wroteSize + |data|];
        PayloadSnoc(log, BlockWrite(wroteSize, data));
        if encrypted {
          BlocksAdd(wroteSize, |data|);
        }
        log := log + [BlockWrite(wroteSize, data)];
        wroteSize := wroteSize + |data|;
      }
    }

    /** Copies bytes into the cache from position `at`. */
    method CopyToCache(at: nat, data: seq<byte>)
      requires partialData.Length == BLOCK && at + |data| <= BLOCK
      modifies partialData
      ensures partialData[..at] == old(partialData[..at])
      ensures partialData[at..at + |data|] == data
      ensures partialData[at + |data|..] == old(partialData[at + |data|..])
    {
      forall i | 0 <= i < |data| {
        partialData[at + i] := data[i];
      }
    }

    /** Adds bytes to the cache; it may become full. */
    method AddToCache(data: seq<byte>)
      requires Layout() && RestIsPadding() && partialBytes + |data| <= BLOCK
      modifies partialData, this`partialBytes
      ensures Layout() && RestIsPadding()
      ensures View() == old(View()).(tail := old(View()).tail + data)
    {
      CopyToCache(partialBytes, data);
      assert forall i :: partialBytes + |data| <= i < BLOCK ==>
          partialData[i] == partialData[partialBytes + |data|..][i - (partialBytes + |data|)];
      partialBytes := partialBytes + |data|;
      assert partialData[..partialBytes]
          == partialData[..old(partialBytes)] + partialData[old(partialBytes)..partialBytes];
    }

    /** Writes out a full cache and fills it with padding. */
    method FlushCache() returns (ok: bool)
      requires Consistent() && encrypted && partialBytes == BLOCK
      modifies this, flash, partialData
      ensures Consistent()
      ensures View() == if ok then Writer(old(wroteSize) + BLOCK, [], true) else old(View())
      ensures log == if ok then old(log) + [BlockWrite(old(wroteSize), old(partialData[..]))] else old(log)
    {
      ok := Append(partialData[..]);
      if ok {
        partialBytes := 0;
        forall i | 0 <= i < BLOCK {
          partialData[i] := FILL;
        }
        completed := true;
      }
    }

    /** Fills the cache from new data and writes it out once it holds a whole block. */
    method FillCache(data: seq<byte>) returns (ok: bool, waiting: bool, rest: seq<byte>)
      requires Valid() && encrypted && partialBytes > 0
      modifies this, flash, partialData
      ensures Consistent() && (waiting <==> Waits(old(View()), data)) && (waiting ==> ok)
      ensures waiting ==> View() == old(View()).(tail := old(View()).tail + data) && log == old(log)
      ensures !ok ==> View() == old(View()).(tail := Filled(old(View()), data)) && log == old(log)
      ensures ok && !waiting ==>
                && View() == Writer(old(wroteSize) + BLOCK, [], true) && rest == Rest(old(View()), data)
                && log == old(log) + [BlockWrite(old(wroteSize), Filled(old(View()), data))]
    {
      var copyLen := if BLOCK - partialBytes < |data| then BLOCK - partialBytes else |data|;
      FillingWaits(View(), data);
      AddToCache(data[..copyLen]);
      rest := data[copyLen..];
      waiting := partialBytes != BLOCK;
      if waiting {
        return true, waiting, rest;
      }
      assert partialData[..] == partialData[..partialBytes];
      ok := FlushCache();
    }

    /** Keeps the last incomplete block of the data in the cache and writes the whole ones. */
    method WriteBlocks(data: seq<byte>) returns (ok: bool)
      requires Valid() && partialBytes == 0
      modifies this, flash, partialData
      ensures Valid()
      ensures View() == AfterRest(encrypted, old(View()), data, ok)
      ensures log == if ok then old(log) + PlanRest(encrypted, old(wroteSize), data) else old(log)
    {
      var count := |data|;
      if encrypted {
        WholeIsWhole(data);
        LeftoverIsRemainder(count);
        count := count - count % BLOCK;
        AddToCache(data[count..]);
      }
      assert View().tail == Remainder(encrypted, data);
      assert data[..count] == Whole(encrypted, data);
      ok := Append(data[..count]);
    }

    /** Data behind what waits in the cache. */
    method WriteThroughCache(data: seq<byte>) returns (ok: bool, ghost done: nat)
      requires Valid() && encrypted && partialBytes > 0
      modifies this, flash, partialData
      ensures Consistent() && Planned(old(View()), old(log), data, done)
      ensures ok <==> done == |Plan(encrypted, old(View()), data)|
    {
      done := 0;
      ghost var w, log0 := View(), log;
      PlanCases(encrypted, w, data);
      var waiting, rest;
      ok, waiting, rest := FillCache(data);
      if !ok || waiting {
        AppendNothing(log0, Plan(encrypted, w, data)[..0]);
        return;
      }
      PlanThroughCache(encrypted, w, data, log0);
      ok := WriteBlocks(rest);
      done := if ok then 2 else 1;
    }

    method WriteDirectly(data: seq<byte>) returns (ok: bool, ghost done: nat)
      requires Valid() && partialBytes == 0
      modifies this, flash, partialData
      ensures Consistent() && Planned(old(View()), old(log), data, done)
      ensures ok <==> done == |Plan(encrypted, old(View()), data)|
    {
      ghost var w, log0 := View(), log;
      PlanCases(encrypted, w, data);
      AppendNothing(log0, Plan(encrypted, w, data)[..0]);
      ok := WriteBlocks(data);
      done := if ok then 1 else 0;
    }

    /** The first `done` planned writes were made, and the writer stands where that leaves it. */
    ghost predicate Planned(w: Writer, log0: seq<BlockWrite>, data: seq<byte>, done: nat)
      requires Layout() && OtaWriterModel.Ready(w)
      reads this, partialData
    {
      && done <= |Plan(encrypted, w, data)|
      && View() == OnWrite(encrypted, w, data, done)
      && log == log0 + Plan(encrypted, w, data)[..done]
    }

    /** One call of the write function. A first byte other than the image magic is refused; otherwise the planned
        writes are made, up to the first that fails. */
    method Write(data: seq<byte>) returns (r: Result, ghost done: nat)
      requires Valid()
      modifies this, flash, partialData
      ensures r == Ok || r == InvalidMagic || r == FlashError
      ensures r == InvalidMagic <==> Refuses(old(View()), data)
      ensures r == InvalidMagic ==> Valid() && View() == old(View()) && log == old(log)
      ensures r != InvalidMagic ==>
                && Consistent() && Planned(old(View()), old(log), data, done)
                && (r == Ok <==> done == |Plan(encrypted, old(View()), data)|)
    {
      done := 0;
      if wroteSize == 0 && partialBytes == 0 && |data| > 0 && data[0] != IMAGE_MAGIC {
        return InvalidMagic, done;
      }
      var ok;
      if encrypted && partialBytes != 0 {
        ok, done := WriteThroughCache(data);
      } else {
        ok, done := WriteDirectly(data);
      }
      r := if ok then Ok else FlashError;
    }

    /** Ends the image, also one that was not received completely: pads the last block, has the image verified and the
        key digest computed. `flushed` is whether the last block, if there was one, was written. */
    method End(memory: bool, imageVerifies: bool, digestComputed: bool) returns (r: Result, ghost flushed: bool)
      requires Consistent()
      modifies this, flash, partialData
      ensures Layout() && Contiguous()
      ensures r == if old(wroteSize) == 0 then NothingWritten
                   else if !flushed then InvalidState
                   else if !memory then NoMemory
                   else if imageVerifies && digestComputed then Ok else ImageRejected
      ensures log == if old(wroteSize) > 0 && flushed then old(log) + FinalBlock(old(View())) else old(log)
      ensures old(partialBytes) == 0 ==> flushed
    {
      flushed := true;
      if wroteSize == 0 {
        return NothingWritten, partialBytes == 0;
      }
      if partialBytes > 0 {
        assert partialData[..] == FinalBlock(View())[0].data;
        var ok := Append(partialData[..]);
        if !ok {
          return InvalidState, false;
        }
        partialBytes := 0;
      } else {
        AppendNothing(log, FinalBlock(View()));
      }
      if !memory {
        return NoMemory, flushed;
      }
      r := if imageVerifies && digestComputed then Ok else ImageRejected;
    }
  }

  /** The least an image must have for something to be written before it is ended. */
  function Least(encrypted: bool): nat {
    if encrypted then BLOCK else 1
  }

  predicate WrongStart(image: seq<byte>) {
    image != [] && image[0] != IMAGE_MAGIC
  }

  /** All chunks were written. */
  ghost predicate Received(w: OtaWriter, chunks: seq<seq<byte>>)
    reads w, w.flash, w.partialData
  {
    && w.Valid() && w.View() == AfterChunks(w.encrypted, chunks) && w.log == AllWrites(w.encrypted, chunks)
    && !WrongStart(Flatten(chunks))
  }

  lemma OneMoreChunk(encrypted: bool, earlier: seq<seq<byte>>, chunk: seq<byte>)
    ensures var w := AfterChunks(encrypted, earlier);
            var plan := Plan(encrypted, w, chunk);
            var w' := OnWrite(encrypted, w, chunk, |plan|);
            && |w'.tail| < BLOCK && w' == AfterChunks(encrypted, earlier + [chunk])
            && AllWrites(encrypted, earlier) + plan[..|plan|] == AllWrites(encrypted, earlier + [chunk])
  {
    assert (earlier + [chunk])[..|earlier|] == earlier;
    var plan := Plan(encrypted, AfterChunks(encrypted, earlier), chunk);
    assert plan[..|plan|] == plan;
  }

  /** A chunk is refused exactly if it makes the image start with a wrong byte. */
  lemma RefusedAtTheStart(encrypted: bool, earlier: seq<seq<byte>>, chunk: seq<byte>)
    requires !WrongStart(Flatten(earlier))
    ensures Refuses(AfterChunks(encrypted, earlier), chunk) <==> WrongStart(Flatten(earlier + [chunk]))
  {
    var w := AfterChunks(encrypted, earlier);
    WriterHolds(encrypted, earlier);
    assert (earlier + [chunk])[..|earlier|] == earlier;
    assert w.wrote == 0 && w.tail == [] <==> Flatten(earlier) == [];
  }

  method ReceiveChunk(w: OtaWriter, ghost earlier: seq<seq<byte>>, chunk: seq<byte>) returns (r: Result)
    requires Received(w, earlier)
    modifies w, w.flash, w.partialData
    ensures r == Ok || r == InvalidMagic || r == FlashError
    ensures r == InvalidMagic <==> WrongStart(Flatten(earlier + [chunk]))
    ensures r == Ok ==> Received(w, earlier + [chunk])
  {
    RefusedAtTheStart(w.encrypted, earlier, chunk);
    OneMoreChunk(w.encrypted, earlier, chunk);
    ghost var done;
    r, done := w.Write(chunk);
  }

  lemma WrongStartStays(chunks: seq<seq<byte>>, k: nat)
    requires k <= |chunks|
    ensures WrongStart(Flatten(chunks[..k])) ==> WrongStart(Flatten(chunks))
  {
    FlattenPrefix(chunks, k);
  }

  method ReceiveChunks(w: OtaWriter, chunks: seq<seq<byte>>) returns (r: Result)
    requires Received(w, [])
    modifies w, w.flash, w.partialData
    ensures r == Ok || r == InvalidMagic || r == FlashError
    ensures r == InvalidMagic ==> WrongStart(Flatten(chunks))
    ensures r == Ok ==> Received(w, chunks)
  {
    assert chunks[..0] == [];
    for i := 0 to |chunks|
      invariant Received(w, chunks[..i])
    {
      assert chunks[..i] + [chunks[i]] == chunks[..i + 1];
      r := ReceiveChunk(w, chunks[..i], chunks[i]);
      if r != Ok {
        WrongStartStays(chunks, i + 1);
        return;
      }
    }
    assert chunks[..|chunks|] == chunks;
    r := Ok;
  }

  lemma WholeBelow(n: nat)
    requires Leftover(n) == 0
    ensures n == 0 || n >= BLOCK
  {
  }

  /** Nothing has been written if and only if the image is shorter than that. */
  lemma WrittenSize(encrypted: bool, chunks: seq<seq<byte>>)
    ensures AfterChunks(encrypted, chunks).wrote == 0 <==> |Flatten(chunks)| < Least(encrypted)
  {
    WriterHolds(encrypted, chunks);
    if encrypted {
      WholeBelow(AfterChunks(encrypted, chunks).wrote);
    }
  }

  /** Ends an image that was received completely. */
  method EndImage(w: OtaWriter, ghost chunks: seq<seq<byte>>, memory: bool, imageVerifies: bool, digestComputed: bool)
    returns (r: Result)
    requires Received(w, chunks)
    modifies w, w.flash, w.partialData
    ensures r == Ok ==> w.Layout() && w.flash[..w.wroteSize] == Image(w.encrypted, chunks)
    ensures r == InvalidState
            || r == if |Flatten(chunks)| < Least(w.encrypted) then NothingWritten
                    else if !memory then NoMemory
                    else if imageVerifies && digestComputed then Ok else ImageRejected
  {
    WrittenSize(w.encrypted, chunks);
    ImageIsWritten(w.encrypted, chunks);
    ghost var flushed;
    r, flushed := w.End(memory, imageVerifies, digestComputed);
  }

  /** A whole image received in pieces. If it is accepted the flash holds it, padded; every refusal has its reason, and
      without a flash failure none is missed. */
  method ReceiveImage(w: OtaWriter, chunks: seq<seq<byte>>, memory: bool, imageVerifies: bool, digestComputed: bool)
    returns (r: Result)
    requires w.Valid() && w.View() == FRESH && w.log == []
    modifies w, w.flash, w.partialData
    ensures r == Ok ==> w.Layout() && w.flash[..w.wroteSize] == Image(w.encrypted, chunks)
    ensures r == FlashError || r == InvalidState
            || r == if WrongStart(Flatten(chunks)) then InvalidMagic
                    else if |Flatten(chunks)| < Least(w.encrypted) then NothingWritten
                    else if !memory then NoMemory
                    else if imageVerifies && digestComputed then Ok else ImageRejected
  {
    r := ReceiveChunks(w, chunks);
    if r == Ok {
      r := EndImage(w, chunks, memory, imageVerifies, digestComputed);
    }
  }
}

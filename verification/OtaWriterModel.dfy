/** The image writer as a value: what it plans to write for a piece of data, and where it stands when some of that has
    been written. Data partitions are written in the same way, without a cache. */
module OtaWriterModel {
  import opened Lists
  import opened OtaStream

  /** `wrote` is the size written so far, `tail` what waits in the cache; `completed` is whether the cache was ever
      filled up and written. */
  datatype Writer = Writer(wrote: nat, tail: seq<byte>, completed: bool)

  datatype BlockWrite = BlockWrite(offset: nat, data: seq<byte>)

  const FRESH := Writer(0, [], false)

  /** An image must start with the magic byte. */
  predicate Refuses(w: Writer, data: seq<byte>) {
    w.wrote == 0 && w.tail == [] && data != [] && data[0] != IMAGE_MAGIC
  }

  /** The cache is in use and the data does not fill it up. */
  predicate Waits(w: Writer, data: seq<byte>) {
    w.tail != [] && |w.tail| + |data| < BLOCK
  }

  predicate Ready(w: Writer) {
    |w.tail| < BLOCK
  }

  /** The cached block, filled up. */
  function Filled(w: Writer, data: seq<byte>): (block: seq<byte>)
    requires Ready(w) && |w.tail| + |data| >= BLOCK
    ensures |block| == BLOCK
  {
    w.tail + data[..BLOCK - |w.tail|]
  }

  /** Data behind what fills up the cache. */
  function Rest(w: Writer, data: seq<byte>): seq<byte>
    requires Ready(w) && !Waits(w, data)
  {
    if w.tail == [] then data else data[BLOCK - |w.tail|..]
  }

  /** Only whole blocks can be written to encrypted flash. */
  function Whole(encrypted: bool, rest: seq<byte>): seq<byte> {
    if encrypted then rest[..|rest| - Leftover(|rest|)] else rest
  }

  function Remainder(encrypted: bool, rest: seq<byte>): seq<byte> {
    if encrypted then rest[|rest| - Leftover(|rest|)..] else []
  }

  function PlanRest(encrypted: bool, wrote: nat, rest: seq<byte>): seq<BlockWrite> {
    [BlockWrite(wrote, Whole(encrypted, rest))]
  }

  /** The writes of one call, in order. */
  function Plan(encrypted: bool, w: Writer, data: seq<byte>): seq<BlockWrite>
    requires Ready(w)
  {
    if Waits(w, data) then []
    else if w.tail == [] then PlanRest(encrypted, w.wrote, data)
    else [BlockWrite(w.wrote, Filled(w, data))] + PlanRest(encrypted, w.wrote + BLOCK, Rest(w, data))
  }

  function AfterRest(encrypted: bool, w: Writer, rest: seq<byte>, ok: bool): Writer {
    w.(wrote := if ok then w.wrote + |Whole(encrypted, rest)| else w.wrote, tail := Remainder(encrypted, rest))
  }

  /** Where the writer stands after the first `done` planned writes succeeded and the next, if any, failed. */
  function OnWrite(encrypted: bool, w: Writer, data: seq<byte>, done: nat): Writer
    requires Ready(w)
  {
    if Waits(w, data) then w.(tail := w.tail + data)
    else if w.tail == [] then AfterRest(encrypted, w, data, done >= 1)
    else if done == 0 then w.(tail := Filled(w, data))
    else AfterRest(encrypted, Writer(w.wrote + BLOCK, [], true), Rest(w, data), done >= 2)
  }

  /** All planned writes succeeded. */
  function Written(encrypted: bool, w: Writer, data: seq<byte>): Writer
    requires Ready(w)
  {
    OnWrite(encrypted, w, data, |Plan(encrypted, w, data)|)
  }

  /** The writes of one call: none if the data only fills the cache, else the filled block, if there is one, and the
      whole blocks behind it. */
  lemma PlanCases(encrypted: bool, w: Writer, data: seq<byte>)
    requires Ready(w)
    ensures Waits(w, data) ==> Plan(encrypted, w, data) == []
    ensures w.tail == [] ==> Plan(encrypted, w, data) == PlanRest(encrypted, w.wrote, data)
    ensures w.tail != [] && !Waits(w, data) ==>
              var plan := Plan(encrypted, w, data);
              && |plan| == 2 && plan[..1] == [BlockWrite(w.wrote, Filled(w, data))]
              && plan == plan[..1] + PlanRest(encrypted, w.wrote + BLOCK, Rest(w, data))
  {
  }

  lemma FillingWaits(w: Writer, data: seq<byte>)
    requires Ready(w) && w.tail != []
    ensures var n := if BLOCK - |w.tail| < |data| then BLOCK - |w.tail| else |data|;
            && (Waits(w, data) ==> w.tail + data[..n] == w.tail + data)
            && (!Waits(w, data) ==> w.tail + data[..n] == Filled(w, data) && data[n..] == Rest(w, data))
  {
  }

  lemma WholeIsWhole(rest: seq<byte>)
    ensures Leftover(|Whole(true, rest)|) == 0 && |Remainder(true, rest)| < BLOCK
  {
    BlocksBelow(|rest|);
  }

  /** What is left in the cache in the end is written with the cache's own contents behind it. */
  function FinalBlock(w: Writer): seq<BlockWrite>
    requires |w.tail| <= BLOCK
  {
    if w.tail == [] then []
    else [BlockWrite(w.wrote, w.tail + seq(BLOCK - |w.tail|, _ => PadByte(w.completed)))]
  }

  // ---------- whole images ----------

  lemma WrittenIsReady(encrypted: bool, w: Writer, data: seq<byte>)
    requires Ready(w)
    ensures Ready(Written(encrypted, w, data))
  {
  }

  function AfterChunks(encrypted: bool, chunks: seq<seq<byte>>): (w: Writer)
    ensures Ready(w)
  {
    if chunks == [] then FRESH
    else
      var w := AfterChunks(encrypted, chunks[..|chunks| - 1]);
      WrittenIsReady(encrypted, w, Last(chunks));
      Written(encrypted, w, Last(chunks))
  }

  function AllWrites(encrypted: bool, chunks: seq<seq<byte>>): seq<BlockWrite> {
    if chunks == [] then []
    else
      var earlier := chunks[..|chunks| - 1];
      AllWrites(encrypted, earlier) + Plan(encrypted, AfterChunks(encrypted, earlier), Last(chunks))
  }

  /** The data of a list of writes, put together. */
  function Payload(writes: seq<BlockWrite>): seq<byte> {
    if writes == [] then [] else Payload(writes[..|writes| - 1]) + Last(writes).data
  }

  /** Every write starts where the one before ended, the first at 0. */
  predicate InOrder(writes: seq<BlockWrite>) {
    writes == []
    || (InOrder(writes[..|writes| - 1]) && Last(writes).offset == |Payload(writes[..|writes| - 1])|)
  }

  lemma PayloadSnoc(writes: seq<BlockWrite>, b: BlockWrite)
    ensures Payload(writes + [b]) == Payload(writes) + b.data
    ensures InOrder(writes + [b]) <==> InOrder(writes) && b.offset == |Payload(writes)|
  {
    assert (writes + [b])[..|writes|] == writes;
  }

  lemma AppendNothing<T>(s: seq<T>, empty: seq<T>)
    requires empty == []
    ensures s + empty == s
  {
  }

  lemma WholeAndRemainder(encrypted: bool, rest: seq<byte>)
    ensures Whole(encrypted, rest) + Remainder(encrypted, rest) == rest
  {
  }

  lemma Regroup(a: seq<byte>, b: seq<byte>, c: seq<byte>)
    ensures a + b + c == a + (b + c)
  {
  }

  lemma RestContinues(encrypted: bool, rest: seq<byte>, writes: seq<BlockWrite>)
    requires InOrder(writes)
    ensures var all := writes + PlanRest(encrypted, |Payload(writes)|, rest);
            && InOrder(all) && Payload(all) == Payload(writes) + Whole(encrypted, rest)
            && Payload(all) + Remainder(encrypted, rest) == Payload(writes) + rest
  {
    PayloadSnoc(writes, BlockWrite(|Payload(writes)|, Whole(encrypted, rest)));
    WholeAndRemainder(encrypted, rest);
    Regroup(Payload(writes), Whole(encrypted, rest), Remainder(encrypted, rest));
  }

  lemma FilledAndRest(w: Writer, data: seq<byte>)
    requires Ready(w) && w.tail != [] && !Waits(w, data)
    ensures Filled(w, data) + Rest(w, data) == w.tail + data
  {
  }

  lemma FillContinues(encrypted: bool, w: Writer, data: seq<byte>, writes: seq<BlockWrite>)
    requires Ready(w) && w.tail != [] && !Waits(w, data) && InOrder(writes) && |Payload(writes)| == w.wrote
    ensures var all := writes + Plan(encrypted, w, data);
            && InOrder(all) && |Payload(all)| == w.wrote + BLOCK + |Whole(encrypted, Rest(w, data))|
            && Payload(all) + Remainder(encrypted, Rest(w, data)) == Payload(writes) + w.tail + data
  {
    var rest := Rest(w, data);
    var first := BlockWrite(w.wrote, Filled(w, data));
    PayloadSnoc(writes, first);
    var filled := writes + [first];
    RestContinues(encrypted, rest, filled);
    assert writes + Plan(encrypted, w, data) == filled + PlanRest(encrypted, w.wrote + BLOCK, rest);
    FilledAndRest(w, data);
    Regroup(Payload(writes), Filled(w, data), rest);
    Regroup(Payload(writes), w.tail, data);
  }

  /** One call continues where the one before stopped, and nothing is lost between flash and cache. */
  lemma PlanContinues(encrypted: bool, w: Writer, data: seq<byte>, writes: seq<BlockWrite>)
    requires Ready(w) && InOrder(writes) && |Payload(writes)| == w.wrote
    ensures var w' := Written(encrypted, w, data);
            var all := writes + Plan(encrypted, w, data);
            && InOrder(all) && |Payload(all)| == w'.wrote
            && Payload(all) + w'.tail == Payload(writes) + w.tail + data
  {
    PlanCases(encrypted, w, data);
    if Waits(w, data) {
      AppendNothing(writes, Plan(encrypted, w, data));
      Regroup(Payload(writes), w.tail, data);
    } else if w.tail == [] {
      RestContinues(encrypted, data, writes);
      AppendNothing(Payload(writes), w.tail);
    } else {
      FillContinues(encrypted, w, data, writes);
    }
  }

  lemma StepCompletes(w: Writer, data: seq<byte>, before: nat)
    requires Ready(w) && Leftover(w.wrote) == 0 && before == w.wrote + |w.tail|
    ensures var w' := Written(true, w, data);
            Leftover(w'.wrote) == 0 && w'.completed == (w.completed || Completes(before, |data|))
  {
    BlocksAdd(w.wrote, |w.tail|);
    if Waits(w, data) {
    } else if w.tail == [] {
      WholeIsWhole(data);
      BlocksAdd(w.wrote, |Whole(true, data)|);
    } else {
      WholeIsWhole(Rest(w, data));
      BlocksAdd(w.wrote, BLOCK);
      BlocksAdd(w.wrote + BLOCK, |Whole(true, Rest(w, data))|);
    }
  }

  /** For any cut into chunks: the writes are contiguous, flash contents followed by the cache are the data, whole
      blocks are written to encrypted flash, and the cache was filled up exactly if some chunk completed a block. */
  lemma {:induction false} WriterHolds(encrypted: bool, chunks: seq<seq<byte>>)
    ensures var w := AfterChunks(encrypted, chunks);
            && InOrder(AllWrites(encrypted, chunks)) && |Payload(AllWrites(encrypted, chunks))| == w.wrote
            && Payload(AllWrites(encrypted, chunks)) + w.tail == Flatten(chunks)
            && (encrypted ==> Leftover(w.wrote) == 0 && w.completed == EverCompleted(chunks))
            && (!encrypted ==> w.tail == [])
    decreases |chunks|
  {
    if chunks == [] {
    } else {
      var earlier := chunks[..|chunks| - 1];
      var w := AfterChunks(encrypted, earlier);
      WriterHolds(encrypted, earlier);
      PlanContinues(encrypted, w, Last(chunks), AllWrites(encrypted, earlier));
      if encrypted {
        StepCompletes(w, Last(chunks), |Flatten(earlier)|);
      }
    }
  }

  /** What the partition holds when the image is complete. */
  function Image(encrypted: bool, chunks: seq<seq<byte>>): seq<byte> {
    if encrypted then FinalImage(chunks) else Flatten(chunks)
  }

  function ImageWrites(encrypted: bool, chunks: seq<seq<byte>>): seq<BlockWrite> {
    AllWrites(encrypted, chunks) + FinalBlock(AfterChunks(encrypted, chunks))
  }

  lemma FinalBlockPads(w: Writer, size: nat)
    requires Ready(w) && w.tail != [] && Leftover(size) == |w.tail|
    ensures FinalBlock(w)[0].data == w.tail + Padding(size, w.completed)
  {
  }

  lemma WholeImage(chunks: seq<seq<byte>>)
    requires Leftover(|Flatten(chunks)|) == 0
    ensures FinalImage(chunks) == Flatten(chunks)
  {
    AppendNothing(Flatten(chunks), Padding(|Flatten(chunks)|, EverCompleted(chunks)));
  }

  lemma NothingLeft(encrypted: bool, chunks: seq<seq<byte>>)
    requires AfterChunks(encrypted, chunks).tail == []
    ensures ImageWrites(encrypted, chunks) == AllWrites(encrypted, chunks)
    ensures Payload(AllWrites(encrypted, chunks)) == Image(encrypted, chunks)
  {
    var w := AfterChunks(encrypted, chunks);
    var all := AllWrites(encrypted, chunks);
    WriterHolds(encrypted, chunks);
    AppendNothing(all, FinalBlock(w));
    AppendNothing(Payload(all), w.tail);
    if encrypted {
      WholeImage(chunks);
    }
  }

  lemma LastBlockIsPadded(w: Writer, writes: seq<BlockWrite>, image: seq<byte>)
    requires Ready(w) && w.tail != [] && Leftover(w.wrote) == 0
    requires InOrder(writes) && |Payload(writes)| == w.wrote && Payload(writes) + w.tail == image
    ensures InOrder(writes + FinalBlock(w))
    ensures Payload(writes + FinalBlock(w)) == image + Padding(|image|, w.completed)
  {
    assert |image| == w.wrote + |w.tail|;
    BlocksAdd(w.wrote, |w.tail|);
    FinalBlockPads(w, |image|);
    PayloadSnoc(writes, FinalBlock(w)[0]);
    Regroup(Payload(writes), w.tail, Padding(|image|, w.completed));
  }

  lemma ImageIsWritten(encrypted: bool, chunks: seq<seq<byte>>)
    ensures InOrder(ImageWrites(encrypted, chunks))
    ensures Payload(ImageWrites(encrypted, chunks)) == Image(encrypted, chunks)
  {
    var w := AfterChunks(encrypted, chunks);
    var all := AllWrites(encrypted, chunks);
    WriterHolds(encrypted, chunks);
    if w.tail == [] {
      NothingLeft(encrypted, chunks);
    } else {
      LastBlockIsPadded(w, all, Flatten(chunks));
    }
  }
}

/** What the partitions hold, byte by byte, when a run of an update reaches the boot switch. */
module FwUpdateContents {
  import opened Lists
  import opened OtaSeq
  import opened OtaData
  import opened OtaStream
  import opened OtaWriterModel
  import opened FwDownloadModel
  import opened FwUpdateModel
  import opened FwUpdateTrace
  import opened FwUpdateFetch
  import opened FwUpdateSafety

  predicate Covers(r: Region, a: nat) {
    r.addr <= a < r.addr + r.size
  }

  /** What is known of the byte at an address: only erased flash can be written, and an operation that failed leaves
      anything behind. */
  function ByteAfter(t: Trace, a: nat): Option<byte> {
    if t == [] then None
    else
      var before := ByteAfter(t[..|t| - 1], a);
      var op := Last(t);
      if !Covers(At(op), a) then before
      else if !op.ok then None
      else
        match op
        case Erase(_, _) => Some(FILL)
        case Write(addr, data, _) => if before == Some(FILL) then Some(data[a - addr]) else None
        case WriteEntry(_, _) => None
  }

  predicate HoldsAt(t: Trace, part: Region, content: seq<byte>, i: nat) {
    ByteAfter(t, part.addr + i) == Some(if i < |content| then content[i] else FILL)
  }

  /** The partition holds the content and erased flash behind it. */
  ghost predicate Holds(t: Trace, part: Region, content: seq<byte>) {
    |content| <= part.size && forall i: nat :: i < part.size ==> HoldsAt(t, part, content, i)
  }

  // ---------- one partition ----------

  lemma ByteSnoc(t: Trace, op: Op, a: nat)
    ensures ByteAfter(t + [op], a)
         == if !Covers(At(op), a) then ByteAfter(t, a)
            else if !op.ok then None
            else
              match op
              case Erase(_, _) => Some(FILL)
              case Write(addr, data, _) => if ByteAfter(t, a) == Some(FILL) then Some(data[a - addr]) else None
              case WriteEntry(_, _) => None
  {
    assert (t + [op])[..|t|] == t;
  }

  lemma {:induction false} ByteKept(t: Trace, t': Trace, a: nat)
    requires t <= t' && forall i :: |t| <= i < |t'| ==> !Covers(At(t'[i]), a)
    ensures ByteAfter(t', a) == ByteAfter(t, a)
    decreases |t'|
  {
    if t == t' {
    } else {
      ByteKept(t, t'[..|t'| - 1], a);
      assert !Covers(At(Last(t')), a);
    }
  }

  lemma {:induction false} LaterSectors(part: Region, offset: nat, i: nat)
    requires i < |SectorErases(part, offset)|
    ensures SectorErases(part, offset)[i].Erase? && SectorErases(part, offset)[i].sector.addr >= part.addr + offset
    decreases i
  {
    if i > 0 {
      LaterSectors(part, offset + SECTOR, i - 1);
    }
  }

  lemma {:induction false} ErasedByte(t: Trace, part: Region, offset: nat, a: nat)
    requires part.addr + offset <= a < part.addr + part.size
    ensures ByteAfter(t + SectorErases(part, offset), a) == Some(FILL)
    decreases part.size - offset
  {
    var op := Erase(Sector(part, offset), true);
    var later := SectorErases(part, offset + SECTOR);
    assert t + SectorErases(part, offset) == (t + [op]) + later;
    if Covers(op.sector, a) {
      forall i | 0 <= i < |later| ensures !Covers(At(later[i]), a) { LaterSectors(part, offset + SECTOR, i); }
      ByteSnoc(t, op, a);
      ByteKept(t + [op], (t + [op]) + later, a);
    } else {
      ErasedByte(t + [op], part, offset + SECTOR, a);
    }
  }

  lemma {:induction false} WrittenByte(t: Trace, part: Region, writes: seq<BlockWrite>, i: nat)
    requires ByteAfter(t, part.addr + i) == Some(FILL) && InOrder(writes)
    ensures HoldsAt(t + Placed(part, writes), part, Payload(writes), i)
    decreases |writes|
  {
    if writes == [] {
      assert t + Placed(part, writes) == t;
    } else {
      var earlier, b := writes[..|writes| - 1], Last(writes);
      var op := Write(part.addr + b.offset, b.data, true);
      WrittenByte(t, part, earlier, i);
      assert t + Placed(part, writes) == (t + Placed(part, earlier)) + [op];
      ByteSnoc(t + Placed(part, earlier), op, part.addr + i);
    }
  }

  lemma WritesFit(t: Trace, part: Region, writes: seq<BlockWrite>)
    requires InOrder(writes) && Continues(t, t + PartOps(part, writes), part)
    ensures |Payload(writes)| <= part.size
  {
    if writes != [] {
      var b := Last(writes);
      assert Last(t + PartOps(part, writes)) == Write(part.addr + b.offset, b.data, true);
    }
  }

  lemma PartHolds(t: Trace, part: Region, writes: seq<BlockWrite>)
    requires InOrder(writes) && Continues(t, t + PartOps(part, writes), part)
    ensures Holds(t + PartOps(part, writes), part, Payload(writes))
  {
    WritesFit(t, part, writes);
    assert t + PartOps(part, writes) == (t + SectorErases(part, 0)) + Placed(part, writes);
    forall i: nat | i < part.size ensures HoldsAt(t + PartOps(part, writes), part, Payload(writes), i) {
      ErasedByte(t, part, 0, part.addr + i);
      WrittenByte(t + SectorErases(part, 0), part, writes, i);
    }
  }

  /** What lies elsewhere does not matter. */
  lemma HoldsKept(t: Trace, t': Trace, part: Region, content: seq<byte>)
    requires Holds(t, part, content) && t <= t' && Untouched(t'[|t|..], part)
    ensures Holds(t', part, content)
  {
    forall i: nat | i < part.size ensures HoldsAt(t', part, content, i) {
      assert HoldsAt(t, part, content, i);
      forall k | |t| <= k < |t'| ensures !Covers(At(t'[k]), part.addr + i) {
        assert t'[k] == t'[|t|..][k - |t|];
      }
      ByteKept(t, t', part.addr + i);
    }
  }

  // ---------- a whole run ----------

  /** An application partition's content: the image, with its last block padded. */
  lemma AppHolds(env: Env, t: Trace, app: Region, f: Fetched)
    requires Continues(t, t + AppOps(env, app, f), app)
    ensures Holds(t + AppOps(env, app, f), app, Image(env.encrypted, f.sink.stored))
  {
    ImageIsWritten(env.encrypted, f.sink.stored);
    PartHolds(t, app, ImageWrites(env.encrypted, f.sink.stored));
  }

  lemma DataHolds(t: Trace, part: Region, f: Fetched)
    requires Continues(t, t + DataOps(part, f), part)
    ensures Holds(t + DataOps(part, f), part, Flatten(f.sink.stored))
  {
    WriterHolds(false, f.sink.stored);
    AppendNothing(Payload(AllWrites(false, f.sink.stored)), []);
    PartHolds(t, part, AllWrites(false, f.sink.stored));
  }

  lemma InsideIsUntouched(t: Trace, t': Trace, part: Region, other: Region)
    requires Continues(t, t', part) && Apart(part, other)
    ensures Untouched(t'[|t|..], other)
  {
  }

  /** The three traces of a run that reaches the switch. */
  lemma StagesOfSwitch(env: Env, next: Bank)
    requires Complete(next) && DoActions(env, next, false).1
    ensures var t1 := UpdateApp(env, [], next.app, false).0;
            var t2 := UpdateData(env, t1, next.gwui, env.gwui).0;
            var t3 := DoActions(env, next, false).0;
            var f := FetchesOf(env, next);
            && t1 == [] + AppOps(env, next.app.value, f.app) && Continues([], t1, next.app.value)
            && t2 == t1 + DataOps(next.gwui.value, f.gwui) && Continues(t1, t2, next.gwui.value)
            && t3 == t2 + DataOps(next.nrf52.value, f.nrf52) && Continues(t2, t3, next.nrf52.value)
  {
    AppOkIff(env, [], next.app.value, false);
    AppContinues(env, [], next.app.value, false);
    var t1 := UpdateApp(env, [], next.app, false).0;
    DataOkIff(env, t1, next.gwui.value, env.gwui);
    DataContinues(env, t1, next.gwui.value, env.gwui);
    var t2 := UpdateData(env, t1, next.gwui, env.gwui).0;
    DataOkIff(env, t2, next.nrf52.value, env.nrf52);
    DataContinues(env, t2, next.nrf52.value, env.nrf52);
  }

  /** What each partition holds once a run gets to the switch: what was stored of its download, the application with
      its last block padded. */
  lemma SwitchedRunHoldsStored(env: Env, next: Bank)
    requires Complete(next) && BankApart(next) && DoActions(env, next, false).1
    ensures var t := DoActions(env, next, false).0;
            var f := FetchesOf(env, next);
            && Holds(t, next.app.value, Image(env.encrypted, f.app.sink.stored))
            && Holds(t, next.gwui.value, Flatten(f.gwui.sink.stored))
            && Holds(t, next.nrf52.value, Flatten(f.nrf52.sink.stored))
  {
    var f := FetchesOf(env, next);
    var t1 := UpdateApp(env, [], next.app, false).0;
    var t2 := UpdateData(env, t1, next.gwui, env.gwui).0;
    var t3 := DoActions(env, next, false).0;
    StagesOfSwitch(env, next);
    AppHolds(env, [], next.app.value, f.app);
    DataHolds(t1, next.gwui.value, f.gwui);
    DataHolds(t2, next.nrf52.value, f.nrf52);
    InsideIsUntouched(t1, t2, next.gwui.value, next.app.value);
    InsideIsUntouched(t2, t3, next.nrf52.value, next.app.value);
    InsideIsUntouched(t2, t3, next.nrf52.value, next.gwui.value);
    HoldsKept(t1, t2, next.app.value, Image(env.encrypted, f.app.sink.stored));
    HoldsKept(t2, t3, next.app.value, Image(env.encrypted, f.app.sink.stored));
    HoldsKept(t2, t3, next.gwui.value, Flatten(f.gwui.sink.stored));
  }

  /** The three files that the server has. */
  datatype Files = Files(app: seq<byte>, gwui: seq<byte>, nrf52: seq<byte>)

  ghost predicate HonestFetch(file: seq<byte>, f: Fetched) {
    file != [] && HonestRun(file, START, f.attempts)
  }

  ghost predicate HonestServers(files: Files, f: Fetches) {
    HonestFetch(files.app, f.app) && HonestFetch(files.gwui, f.gwui) && HonestFetch(files.nrf52, f.nrf52)
  }

  /** No attempt that was resumed had a redirect with a body. */
  ghost predicate NothingSkipped(f: Fetched) {
    SkippedBytes(START, f.attempts) == 0
  }

  lemma StoredIsFile(env: Env, target: Target, t: Trace, source: Source, file: seq<byte>)
    requires var f := FetchAll(env, target, t, source); Downloaded(f) && HonestFetch(file, f)
    ensures var f := FetchAll(env, target, t, source); Flatten(f.sink.stored) == file <==> NothingSkipped(f)
  {
    var f := FetchAll(env, target, t, source);
    WholeFetch(env, target, t, source);
    SuccessfulDownload(file, f.attempts);
  }

  /** The files arrive: if the switch is reached, each partition holds what was stored of its download and erased flash
      behind it, and that is the server's file if and only if no resumed attempt had a redirect with a body. */
  lemma SwitchedRunHoldsFiles(crc: Crc, env: Env, o: Record, running: nat, next: Bank, files: Files)
    requires running < SLOTS && BankApart(next) && Run(crc, env, o, running, next).switching
    requires Complete(next) && HonestServers(files, FetchesOf(env, next))
    ensures var t := DoActions(env, next, false).0;
            var f := FetchesOf(env, next);
            && t <= Run(crc, env, o, running, next).trace
            && Holds(t, next.app.value, Image(env.encrypted, f.app.sink.stored))
            && (Flatten(f.app.sink.stored) == files.app <==> NothingSkipped(f.app))
            && Holds(t, next.gwui.value, Flatten(f.gwui.sink.stored))
            && (Flatten(f.gwui.sink.stored) == files.gwui <==> NothingSkipped(f.gwui))
            && Holds(t, next.nrf52.value, Flatten(f.nrf52.sink.stored))
            && (Flatten(f.nrf52.sink.stored) == files.nrf52 <==> NothingSkipped(f.nrf52))
  {
    var t1 := UpdateApp(env, [], next.app, false).0;
    var t2 := UpdateData(env, t1, next.gwui, env.gwui).0;
    SwitchReachedIff(crc, env, o, running, next);
    SwitchedRunHoldsStored(env, next);
    StoredIsFile(env, AppTarget(env, next.app.value), [], env.app, files.app);
    StoredIsFile(env, DataTarget(next.gwui.value), t1, env.gwui, files.gwui);
    StoredIsFile(env, DataTarget(next.nrf52.value), t2, env.nrf52, files.nrf52);
    InvalidateInBank(env, BeforeInvalidation(crc, env, o, running, next), next);
  }

  /** The servers have the files and no resumed attempt had a redirect with a body. */
  ghost predicate ServersBehave(env: Env, next: Bank, files: Files) {
    && Complete(next)
    && var f := FetchesOf(env, next);
       HonestServers(files, f) && NothingSkipped(f.app) && NothingSkipped(f.gwui) && NothingSkipped(f.nrf52)
  }

  /** Every partition of the slot holds its file, the application as an image. */
  ghost predicate HoldsFiles(env: Env, t: Trace, next: Bank, files: Files)
    requires Complete(next)
  {
    var pieces := FetchesOf(env, next).app.sink.stored;
    && Flatten(pieces) == files.app && Holds(t, next.app.value, Image(env.encrypted, pieces))
    && Holds(t, next.gwui.value, files.gwui)
    && Holds(t, next.nrf52.value, files.nrf52)
  }

  ghost predicate AwayFromRecord(next: Bank) {
    && Complete(next)
    && Apart(next.app.value, OTADATA) && Apart(next.gwui.value, OTADATA) && Apart(next.nrf52.value, OTADATA)
  }

  lemma SwitchTouchesRecordOnly(crc: Crc, env: Env, t: Trace, o: Record, running: nat)
    requires running < SLOTS
    ensures Continues(t, SwitchBoot(crc, env, t, o, running).trace, OTADATA)
  {
  }

  /** After a successful update with honest servers and without such redirects, every partition of the new slot holds
      the server's file and erased flash behind it, the application as an image. */
  lemma UpdatedSlotHoldsFiles(crc: Crc, env: Env, o: Record, running: nat, next: Bank, files: Files)
    requires running < SLOTS && Run(crc, env, o, running, next).ok
    requires BankApart(next) && AwayFromRecord(next) && ServersBehave(env, next, files)
    ensures HoldsFiles(env, Run(crc, env, o, running, next).trace, next, files)
  {
    var t, t' := DoActions(env, next, false).0, Run(crc, env, o, running, next).trace;
    SwitchReachedIff(crc, env, o, running, next);
    SwitchedRunHoldsFiles(crc, env, o, running, next, files);
    SwitchTouchesRecordOnly(crc, env, t, o, running);
    InsideIsUntouched(t, t', OTADATA, next.app.value);
    InsideIsUntouched(t, t', OTADATA, next.gwui.value);
    InsideIsUntouched(t, t', OTADATA, next.nrf52.value);
    HoldsKept(t, t', next.app.value, Image(env.encrypted, FetchesOf(env, next).app.sink.stored));
    HoldsKept(t, t', next.gwui.value, files.gwui);
    HoldsKept(t, t', next.nrf52.value, files.nrf52);
  }

  lemma GatewayBanksAwayFromRecord(slot: nat)
    requires slot < SLOTS
    ensures AwayFromRecord(BankOf(slot))
  {
  }

  /** With the gateway's partition table that holds for the slot that is not running. */
  lemma GatewaySlotHoldsFiles(crc: Crc, env: Env, o: Record, running: nat, files: Files)
    requires running < SLOTS && Run(crc, env, o, running, BankOf(1 - running)).ok
    requires ServersBehave(env, BankOf(1 - running), files)
    ensures HoldsFiles(env, Run(crc, env, o, running, BankOf(1 - running)).trace, BankOf(1 - running), files)
  {
    GatewayBanksAreProper(1 - running);
    GatewayBanksAwayFromRecord(1 - running);
    UpdatedSlotHoldsFiles(crc, env, o, running, BankOf(1 - running), files);
  }
}

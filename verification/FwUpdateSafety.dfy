/** Every run of an update, whatever fails in it: what it may touch, when it switches, what it leaves behind. */
module FwUpdateSafety {
  import opened Lists
  import opened OtaSeq
  import opened OtaData
  import opened OtaStream
  import opened OtaWriterModel
  import opened OtaSwitch
  import opened OtaLife
  import opened FwDownloadModel
  import opened FwUpdateModel
  import opened FwUpdateTrace
  import opened FwUpdateFetch

  // ---------- what a run touches ----------

  lemma EndContinues(env: Env, t: Trace, part: Region, w: Writer)
    requires |w.tail| <= BLOCK
    ensures Continues(t, EndImage(env, t, part, w).0, part)
  {
    WriteAllContinues(env, t, part, FinalBlock(w));
  }

  lemma AppContinues(env: Env, t: Trace, app: Region, pendingVerify: bool)
    ensures Continues(t, UpdateApp(env, t, Some(app), pendingVerify).0, app)
  {
    ErasePartitionContinues(env, t, app, false);
    WholeFetch(env, AppTarget(env, app), t, env.app);
    var f := FetchAll(env, AppTarget(env, app), t, env.app);
    EndContinues(env, f.sink.trace, app, f.sink.writer);
  }

  lemma DataContinues(env: Env, t: Trace, part: Region, source: Source)
    ensures Continues(t, UpdateData(env, t, Some(part), source).0, part)
  {
    ErasePartitionContinues(env, t, part, false);
    WholeFetch(env, DataTarget(part), t, source);
  }

  lemma InvalidateContinues(env: Env, t: Trace, part: Region)
    ensures Continues(t, Invalidate(env, t, Some(part)), part)
  {
    ErasePartitionContinues(env, t, part, true);
  }

  ghost predicate InBank(at: Region, bank: Bank) {
    || (bank.app.Some? && Inside(at, bank.app.value))
    || (bank.gwui.Some? && Inside(at, bank.gwui.value))
    || (bank.nrf52.Some? && Inside(at, bank.nrf52.value))
  }

  /** `t'` continues `t` with operations inside the bank's partitions only. */
  ghost predicate ContinuesInBank(t: Trace, t': Trace, bank: Bank) {
    t <= t' && forall i :: |t| <= i < |t'| ==> InBank(At(t'[i]), bank)
  }

  lemma ActionsInBank(env: Env, next: Bank, pendingVerify: bool)
    ensures ContinuesInBank([], DoActions(env, next, pendingVerify).0, next)
  {
    if next.app.Some? {
      AppContinues(env, [], next.app.value, pendingVerify);
    }
    var t1 := UpdateApp(env, [], next.app, pendingVerify).0;
    if next.gwui.Some? {
      DataContinues(env, t1, next.gwui.value, env.gwui);
    }
    var t2 := UpdateData(env, t1, next.gwui, env.gwui).0;
    if next.nrf52.Some? {
      DataContinues(env, t2, next.nrf52.value, env.nrf52);
    }
  }

  lemma InvalidateInBank(env: Env, t: Trace, next: Bank)
    ensures ContinuesInBank(t, InvalidateAll(env, t, next), next)
  {
    if next.app.Some? {
      InvalidateContinues(env, t, next.app.value);
    }
    var t1 := if env.unconfirmed then t else Invalidate(env, t, next.app);
    if next.gwui.Some? {
      InvalidateContinues(env, t1, next.gwui.value);
    }
    var t2 := Invalidate(env, t1, next.gwui);
    if next.nrf52.Some? {
      InvalidateContinues(env, t2, next.nrf52.value);
    }
  }

  /** The trace of a run up to the point where it may start invalidating. */
  function BeforeInvalidation(crc: Crc, env: Env, o: Record, running: nat, next: Bank): Trace
    requires running < SLOTS
  {
    var (t, done) := DoActions(env, next, PendingVerifyNow(crc, o, running));
    if done then SwitchBoot(crc, env, t, o, running).trace else t
  }

  /** The sector of the boot record that a switch replaces. */
  function ReplacedSector(crc: Crc, o: Record, running: nat): Region
    requires running < SLOTS
  {
    EntrySector(SwitchPlan(crc, o, Some(running), 1 - running, SLOTS).index)
  }

  lemma InBankSoFar(crc: Crc, env: Env, o: Record, running: nat, next: Bank)
    requires running < SLOTS
    ensures var t := BeforeInvalidation(crc, env, o, running, next);
            forall i :: 0 <= i < |t| ==>
                          || InBank(At(t[i]), next)
                          || (Run(crc, env, o, running, next).switching && At(t[i]) == ReplacedSector(crc, o, running))
  {
    ActionsInBank(env, next, PendingVerifyNow(crc, o, running));
  }

  /** Everything a run erases or writes lies in the partitions it is to update, or it is the sector of the boot record
      that does not count, and the switch has been reached. */
  lemma RunStaysInBank(crc: Crc, env: Env, o: Record, running: nat, next: Bank)
    requires running < SLOTS
    ensures var r := Run(crc, env, o, running, next);
            forall i :: 0 <= i < |r.trace| ==>
                          || InBank(At(r.trace[i]), next)
                          || (r.switching && At(r.trace[i]) == ReplacedSector(crc, o, running))
  {
    InBankSoFar(crc, env, o, running, next);
    InvalidateInBank(env, BeforeInvalidation(crc, env, o, running, next), next);
  }

  /** With the gateway's partition table: no run touches what the running slot uses, nor the sector of the boot record
      that describes the running image, if any does. */
  lemma RunLeavesRunningSlotAlone(crc: Crc, env: Env, o: Record, running: nat, i: nat, k: nat)
    requires running < SLOTS
    requires i < |Run(crc, env, o, running, BankOf(1 - running)).trace|
    requires k < 2 && Preserved(crc, o, Some(running), SLOTS) == Some(k)
    ensures var at := At(Run(crc, env, o, running, BankOf(1 - running)).trace[i]);
            var mine := BankOf(running);
            && Apart(at, mine.app.value) && Apart(at, mine.gwui.value) && Apart(at, mine.nrf52.value)
            && Apart(at, EntrySector(k))
  {
    RunStaysInBank(crc, env, o, running, BankOf(1 - running));
  }

  // ---------- when a run switches ----------

  predicate Complete(next: Bank) {
    next.app.Some? && next.gwui.Some? && next.nrf52.Some?
  }

  datatype Fetches = Fetches(app: Fetched, gwui: Fetched, nrf52: Fetched)

  /** The three downloads of a run, each with the flash operations that come before it. */
  function FetchesOf(env: Env, next: Bank): Fetches
    requires Complete(next)
  {
    var t1 := UpdateApp(env, [], next.app, false).0;
    var t2 := UpdateData(env, t1, next.gwui, env.gwui).0;
    Fetches(FetchAll(env, AppTarget(env, next.app.value), [], env.app),
            FetchAll(env, DataTarget(next.gwui.value), t1, env.gwui),
            FetchAll(env, DataTarget(next.nrf52.value), t2, env.nrf52))
  }

  predicate Downloaded(f: Fetched) {
    Download(START, f.attempts).1
  }

  /** What there is to do with flash to put writes into an erased partition. */
  function PartOps(part: Region, writes: seq<BlockWrite>): seq<Op> {
    SectorErases(part, 0) + Placed(part, writes)
  }

  function AppOps(env: Env, app: Region, f: Fetched): seq<Op> {
    PartOps(app, ImageWrites(env.encrypted, f.sink.stored))
  }

  function DataOps(part: Region, f: Fetched): seq<Op> {
    PartOps(part, AllWrites(false, f.sink.stored))
  }

  /** The image ended: something was written, and there is room for the last block. */
  predicate CanEnd(part: Region, w: Writer)
    requires |w.tail| <= BLOCK
  {
    w.wrote > 0 && Fits(part, FinalBlock(w))
  }

  predicate AppReady(env: Env, app: Region, f: Fetched)
    requires SinkReady(f.sink)
  {
    && app.size % SECTOR == 0 && env.app.url && env.app.memory
    && Downloaded(f) && CanEnd(app, f.sink.writer) && env.imageVerifies && env.keyMatches
  }

  predicate DataReady(part: Region, source: Source, f: Fetched) {
    part.size % SECTOR == 0 && source.url && Downloaded(f)
  }

  lemma EndOkIff(env: Env, t: Trace, part: Region, w: Writer)
    requires |w.tail| <= BLOCK
    ensures var (t', ok) := EndImage(env, t, part, w);
            && t <= t'
            && (ok <==> OkFrom(t', |t|) && CanEnd(part, w))
            && (ok ==> t' == t + Placed(part, FinalBlock(w)))
  {
    WriteAllOkIff(env, t, part, FinalBlock(w));
  }

  lemma FetchedTrace(env: Env, target: Target, t: Trace, source: Source)
    ensures var (t1, erased) := ErasePartition(env, t, target.part, false);
            var f := FetchAll(env, target, t, source);
            && t <= t1 <= f.sink.trace
            && f.ok == Downloaded(f)
            && (target.part.size % SECTOR == 0 ==> (erased <==> OkFrom(t1, |t|)))
            && (erased && f.ok ==>
                  && OkFrom(f.sink.trace, |t|)
                  && f.sink.trace == t + PartOps(target.part, AllWrites(target.encrypted, f.sink.stored)))
  {
    EraseOkIff(env, t, target.part, 0);
    WholeFetch(env, target, t, source);
    var (t1, erased) := ErasePartition(env, t, target.part, false);
    var f := FetchAll(env, target, t, source);
    if erased && f.ok {
      OkFromSplits(t, t1, f.sink.trace);
      assert t1 + Placed(target.part, AllWrites(target.encrypted, f.sink.stored))
          == t + PartOps(target.part, AllWrites(target.encrypted, f.sink.stored));
    }
  }

  lemma AppOpsSplit(env: Env, app: Region, f: Fetched)
    requires f.sink.writer == AfterChunks(env.encrypted, f.sink.stored)
    ensures AppOps(env, app, f)
         == PartOps(app, AllWrites(env.encrypted, f.sink.stored)) + Placed(app, FinalBlock(f.sink.writer))
  {
    PlacedAppend(app, AllWrites(env.encrypted, f.sink.stored), FinalBlock(f.sink.writer));
  }

  lemma AppOkIff(env: Env, t: Trace, app: Region, pendingVerify: bool)
    ensures var (t', ok) := UpdateApp(env, t, Some(app), pendingVerify);
            var f := FetchAll(env, AppTarget(env, app), t, env.app);
            && t <= t'
            && (ok <==> !pendingVerify && AppReady(env, app, f) && OkFrom(t', |t|))
            && (ok ==> t' == t + AppOps(env, app, f))
  {
    var target := AppTarget(env, app);
    var f := FetchAll(env, target, t, env.app);
    FetchedTrace(env, target, t, env.app);
    EndOkIff(env, f.sink.trace, app, f.sink.writer);
    var (t1, erased) := ErasePartition(env, t, app, false);
    var (t2, ended) := EndImage(env, f.sink.trace, app, f.sink.writer);
    OkFromSplits(t, t1, t2);
    OkFromSplits(t, f.sink.trace, t2);
    if erased && f.ok && ended {
      WholeFetch(env, target, t, env.app);
      AppOpsSplit(env, app, f);
      assert t + AppOps(env, app, f)
          == f.sink.trace + Placed(app, FinalBlock(f.sink.writer));
    }
  }

  lemma DataOkIff(env: Env, t: Trace, part: Region, source: Source)
    ensures var (t', ok) := UpdateData(env, t, Some(part), source);
            var f := FetchAll(env, DataTarget(part), t, source);
            && t <= t'
            && (ok <==> DataReady(part, source, f) && OkFrom(t', |t|))
            && (ok ==> t' == t + DataOps(part, f))
  {
    FetchedTrace(env, DataTarget(part), t, source);
    var (t1, erased) := ErasePartition(env, t, part, false);
    OkFromSplits(t, t1, FetchAll(env, DataTarget(part), t, source).sink.trace);
  }

  lemma BothDataOkIff(env: Env, t: Trace, next: Bank)
    requires Complete(next)
    ensures var (t', ok) := UpdateBothData(env, t, next);
            var f1 := FetchAll(env, DataTarget(next.gwui.value), t, env.gwui);
            var t2 := UpdateData(env, t, next.gwui, env.gwui).0;
            var f2 := FetchAll(env, DataTarget(next.nrf52.value), t2, env.nrf52);
            && t <= t'
            && (ok <==> DataReady(next.gwui.value, env.gwui, f1) && DataReady(next.nrf52.value, env.nrf52, f2)
                        && OkFrom(t', |t|))
            && (ok ==> t' == t + DataOps(next.gwui.value, f1) + DataOps(next.nrf52.value, f2))
  {
    DataOkIff(env, t, next.gwui.value, env.gwui);
    var (t2, gwui) := UpdateData(env, t, next.gwui, env.gwui);
    if gwui {
      DataOkIff(env, t2, next.nrf52.value, env.nrf52);
      OkFromSplits(t, t2, UpdateData(env, t2, next.nrf52, env.nrf52).0);
    }
  }

  /** Everything a run needs, flash aside. */
  predicate AllReady(env: Env, next: Bank, pendingVerify: bool) {
    && Complete(next) && !pendingVerify && env.nrf52Flashed
    && var f := FetchesOf(env, next);
       && AppReady(env, next.app.value, f.app) && DataReady(next.gwui.value, env.gwui, f.gwui)
       && DataReady(next.nrf52.value, env.nrf52, f.nrf52)
  }

  function AllOps(env: Env, next: Bank, f: Fetches): seq<Op>
    requires Complete(next)
  {
    AppOps(env, next.app.value, f.app) + DataOps(next.gwui.value, f.gwui) + DataOps(next.nrf52.value, f.nrf52)
  }

  lemma IncompleteFails(env: Env, next: Bank, pendingVerify: bool)
    requires !Complete(next) || pendingVerify
    ensures !DoActions(env, next, pendingVerify).1
  {
  }

  lemma BothDataOfRun(env: Env, next: Bank)
    requires Complete(next)
    ensures var t1 := UpdateApp(env, [], next.app, false).0;
            var (t', ok) := UpdateBothData(env, t1, next);
            var f := FetchesOf(env, next);
            && t1 <= t'
            && (ok <==> DataReady(next.gwui.value, env.gwui, f.gwui)
                        && DataReady(next.nrf52.value, env.nrf52, f.nrf52) && OkFrom(t', |t1|))
            && (ok ==> t' == t1 + DataOps(next.gwui.value, f.gwui) + DataOps(next.nrf52.value, f.nrf52))
  {
    BothDataOkIff(env, UpdateApp(env, [], next.app, false).0, next);
  }

  lemma AppOfRun(env: Env, next: Bank)
    requires Complete(next)
    ensures var (t1, ok) := UpdateApp(env, [], next.app, false);
            var f := FetchesOf(env, next).app;
            && (ok <==> AppReady(env, next.app.value, f) && OkFrom(t1, 0))
            && (ok ==> t1 == AppOps(env, next.app.value, f))
  {
    AppOkIff(env, [], next.app.value, false);
    var f := FetchesOf(env, next).app;
    assert [] + AppOps(env, next.app.value, f) == AppOps(env, next.app.value, f);
  }

  lemma ActionsOkIff(env: Env, next: Bank, pendingVerify: bool)
    ensures var (t, done) := DoActions(env, next, pendingVerify);
            && (done <==> AllReady(env, next, pendingVerify) && OkFrom(t, 0))
            && (done ==> t == AllOps(env, next, FetchesOf(env, next)))
  {
    if !Complete(next) || pendingVerify {
      IncompleteFails(env, next, pendingVerify);
    } else {
      AppOfRun(env, next);
      BothDataOfRun(env, next);
      var t1 := UpdateApp(env, [], next.app, false).0;
      OkFromSplits([], t1, UpdateBothData(env, t1, next).0);
    }
  }

  /** The boot switch is reached exactly when all three downloads succeed, the application image verifies under the
      running key, the nRF52 is flashed and no erase or write fails; and then each partition was erased completely and
      written with what was stored of its download, one after the other. */
  lemma SwitchReachedIff(crc: Crc, env: Env, o: Record, running: nat, next: Bank)
    requires running < SLOTS
    ensures var pendingVerify := PendingVerifyNow(crc, o, running);
            var t := DoActions(env, next, pendingVerify).0;
            var switching := Run(crc, env, o, running, next).switching;
            && (switching <==> AllReady(env, next, pendingVerify) && OkFrom(t, 0))
            && (switching ==> t == AllOps(env, next, FetchesOf(env, next)))
  {
    ActionsOkIff(env, next, PendingVerifyNow(crc, o, running));
  }

  // ---------- what a failed run leaves behind ----------

  /** The last thing done to the partition is an attempt to erase its first sector. */
  ghost predicate EndsErasing(t: Trace, part: Region, i: nat) {
    && i < |t| && t[i].Erase? && At(t[i]) == Sector(part, 0)
    && forall j :: i < j < |t| ==> Apart(At(t[j]), part)
  }

  ghost predicate BankApart(b: Bank) {
    && (b.app.Some? && b.gwui.Some? ==> Apart(b.app.value, b.gwui.value))
    && (b.app.Some? && b.nrf52.Some? ==> Apart(b.app.value, b.nrf52.value))
    && (b.gwui.Some? && b.nrf52.Some? ==> Apart(b.gwui.value, b.nrf52.value))
  }

  predicate WholeSectors(part: Region) {
    part.size > 0 && part.size % SECTOR == 0
  }

  lemma InvalidateErases(env: Env, t: Trace, part: Region)
    requires WholeSectors(part)
    ensures Invalidate(env, t, Some(part)) == t + [Erase(Sector(part, 0), |t| !in env.failing)]
  {
  }

  lemma StaysErasing(env: Env, t: Trace, part: Region, i: nat, other: Option<Region>)
    requires EndsErasing(t, part, i) && (other.Some? ==> Apart(part, other.value))
    ensures EndsErasing(Invalidate(env, t, other), part, i)
  {
    if other.Some? {
      InvalidateContinues(env, t, other.value);
    }
  }

  lemma EndsErasingApp(env: Env, t: Trace, next: Bank)
    requires BankApart(next) && next.app.Some? && WholeSectors(next.app.value) && !env.unconfirmed
    ensures EndsErasing(InvalidateAll(env, t, next), next.app.value, |t|)
  {
    var t1 := Invalidate(env, t, next.app);
    InvalidateErases(env, t, next.app.value);
    StaysErasing(env, t1, next.app.value, |t|, next.gwui);
    StaysErasing(env, Invalidate(env, t1, next.gwui), next.app.value, |t|, next.nrf52);
  }

  /** Every failed run ends by trying to invalidate each partition it may have written, except that an unconfirmed
      image never touches the other application. */
  lemma FailedRunInvalidates(crc: Crc, env: Env, o: Record, running: nat, next: Bank)
    requires running < SLOTS && BankApart(next) && !Run(crc, env, o, running, next).ok
    ensures var t := Run(crc, env, o, running, next).trace;
            && (next.app.Some? && WholeSectors(next.app.value) && !env.unconfirmed ==>
                  exists i: nat :: EndsErasing(t, next.app.value, i))
            && (next.gwui.Some? && WholeSectors(next.gwui.value) ==>
                  exists i: nat :: EndsErasing(t, next.gwui.value, i))
            && (next.nrf52.Some? && WholeSectors(next.nrf52.value) ==>
                  exists i: nat :: EndsErasing(t, next.nrf52.value, i))
  {
    var t := BeforeInvalidation(crc, env, o, running, next);
    var t1 := if env.unconfirmed then t else Invalidate(env, t, next.app);
    var t2 := Invalidate(env, t1, next.gwui);
    if next.app.Some? && WholeSectors(next.app.value) && !env.unconfirmed {
      EndsErasingApp(env, t, next);
      assert EndsErasing(InvalidateAll(env, t, next), next.app.value, |t|);
    }
    if next.gwui.Some? && WholeSectors(next.gwui.value) {
      InvalidateErases(env, t1, next.gwui.value);
      StaysErasing(env, t2, next.gwui.value, |t1|, next.nrf52);
    }
    if next.nrf52.Some? && WholeSectors(next.nrf52.value) {
      InvalidateErases(env, t2, next.nrf52.value);
      assert EndsErasing(Invalidate(env, t2, next.nrf52), next.nrf52.value, |t2|);
    }
  }

  // ---------- runs of an image that is not confirmed ----------

  /** A bank whose partitions can all be invalidated. */
  ghost predicate Proper(next: Bank) {
    && Complete(next) && BankApart(next)
    && WholeSectors(next.app.value) && WholeSectors(next.gwui.value) && WholeSectors(next.nrf52.value)
  }

  lemma GatewayBanksAreProper(slot: nat)
    requires slot < SLOTS
    ensures Proper(BankOf(slot))
  {
  }

  /** Some operation that worked erased the partition's first sector. */
  ghost predicate FirstSectorErased(t: Trace, part: Region) {
    exists i :: 0 <= i < |t| && t[i] == Erase(Sector(part, 0), true)
  }

  ghost predicate Untouched(t: Trace, part: Region) {
    forall i :: 0 <= i < |t| ==> Apart(At(t[i]), part)
  }

  function InvalidatingOps(env: Env, next: Bank): Trace
    requires Complete(next)
  {
    var n := if env.unconfirmed then 0 else 1;
    (if env.unconfirmed then [] else [Erase(Sector(next.app.value, 0), 0 !in env.failing)])
    + [Erase(Sector(next.gwui.value, 0), n !in env.failing), Erase(Sector(next.nrf52.value, 0), n + 1 !in env.failing)]
  }

  /** A run started while the record says that the running image waits for confirmation only invalidates. */
  lemma PendingRunOnlyInvalidates(crc: Crc, env: Env, o: Record, running: nat, next: Bank)
    requires running < SLOTS && PendingVerifyNow(crc, o, running) && Proper(next)
    ensures Run(crc, env, o, running, next) == Result(false, false, InvalidatingOps(env, next), o)
  {
    var t1 := if env.unconfirmed then [] else Invalidate(env, [], next.app);
    InvalidateErases(env, [], next.app.value);
    InvalidateErases(env, t1, next.gwui.value);
    InvalidateErases(env, Invalidate(env, t1, next.gwui), next.nrf52.value);
  }

  lemma DifferentSectors(a: Region, b: Region)
    requires Apart(a, b) && WholeSectors(a) && WholeSectors(b)
    ensures Sector(a, 0) != Sector(b, 0)
  {
  }

  /** Such a run keeps the application that a rollback would start, if the running image is found unconfirmed there
      too; but the data partitions which that application needs keep their first sectors if and only if both erases
      fail. */
  lemma UnconfirmedRunInvalidatesRollbackData(crc: Crc, env: Env, o: Record, running: nat, next: Bank)
    requires running < SLOTS && PendingVerifyNow(crc, o, running) && env.unconfirmed && Proper(next)
    ensures var t := Run(crc, env, o, running, next).trace;
            && Untouched(t, next.app.value)
            && (FirstSectorErased(t, next.gwui.value) <==> 0 !in env.failing)
            && (FirstSectorErased(t, next.nrf52.value) <==> 1 !in env.failing)
            && (!FirstSectorErased(t, next.gwui.value) && !FirstSectorErased(t, next.nrf52.value)
                <==> {0, 1} <= env.failing)
  {
    PendingRunOnlyInvalidates(crc, env, o, running, next);
    DifferentSectors(next.gwui.value, next.nrf52.value);
    var t := Run(crc, env, o, running, next).trace;
    assert t[0] == Erase(Sector(next.gwui.value, 0), 0 !in env.failing);
    assert t[1] == Erase(Sector(next.nrf52.value, 0), 1 !in env.failing);
  }

  /** The two ways of finding out whether the image is confirmed can disagree. If only the record says that it is not,
      the run loses the application that a rollback would start if and only if the first erase works. */
  lemma DisagreementErasesRollbackApp(crc: Crc, env: Env, o: Record, running: nat, next: Bank)
    requires running < SLOTS && PendingVerifyNow(crc, o, running) && !env.unconfirmed && Proper(next)
    ensures FirstSectorErased(Run(crc, env, o, running, next).trace, next.app.value) <==> 0 !in env.failing
  {
    PendingRunOnlyInvalidates(crc, env, o, running, next);
    DifferentSectors(next.app.value, next.gwui.value);
    DifferentSectors(next.app.value, next.nrf52.value);
    assert Run(crc, env, o, running, next).trace[0] == Erase(Sector(next.app.value, 0), 0 !in env.failing);
  }

  /** If only the record says that it is confirmed, a failed run leaves the new application as it was when it failed,
      which may be complete. */
  lemma DisagreementKeepsNewApp(crc: Crc, env: Env, o: Record, running: nat, next: Bank)
    requires running < SLOTS && env.unconfirmed && BankApart(next) && next.app.Some?
    requires !Run(crc, env, o, running, next).ok
    ensures var t := BeforeInvalidation(crc, env, o, running, next);
            var r := Run(crc, env, o, running, next);
            t <= r.trace && Untouched(r.trace[|t|..], next.app.value)
  {
    var t := BeforeInvalidation(crc, env, o, running, next);
    InvalidateInBank(env, t, next.(app := None));
    assert InvalidateAll(env, t, next.(app := None)) == InvalidateAll(env, t, next);
  }

  // ---------- what the device boots afterwards ----------

  ghost predicate HeaderErased(t: Trace, part: Region) {
    exists i: nat :: EndsErasing(t, part, i) && t[i].ok
  }

  /** What a run means for the images: it does not touch the running one; one without its first sector does not load;
      after a completed run the new one has been verified. */
  ghost predicate BootableAfter(bootable: set<nat>, r: Result, running: nat, next: Bank)
    requires running < SLOTS
  {
    && running in bootable && bootable <= {0, 1}
    && (next.app.Some? && HeaderErased(r.trace, next.app.value) ==> 1 - running !in bootable)
    && (r.ok ==> 1 - running in bootable)
  }

  function Boots(crc: Crc, o: Record, bootable: set<nat>): Option<nat> {
    Load(BootOnce(crc, o, SLOTS).start, SLOTS, bootable)
  }

  /** The operation with which a failed run tries to erase the application's first sector is the first one after what
      it did before. */
  function InvalidatingOp(crc: Crc, env: Env, o: Record, running: nat, next: Bank): nat
    requires running < SLOTS
  {
    |BeforeInvalidation(crc, env, o, running, next)|
  }

  lemma InvalidateKeeps(env: Env, t: Trace, part: Option<Region>, i: nat)
    requires i < |t|
    ensures i < |Invalidate(env, t, part)| && Invalidate(env, t, part)[i] == t[i]
  {
    if part.Some? {
      InvalidateContinues(env, t, part.value);
    }
  }

  lemma FailedRunErasesHeader(crc: Crc, env: Env, o: Record, running: nat, next: Bank)
    requires running < SLOTS && BankApart(next) && next.app.Some? && WholeSectors(next.app.value)
    requires !Run(crc, env, o, running, next).ok && !env.unconfirmed
    requires InvalidatingOp(crc, env, o, running, next) !in env.failing
    ensures HeaderErased(Run(crc, env, o, running, next).trace, next.app.value)
  {
    var t := BeforeInvalidation(crc, env, o, running, next);
    var t1 := Invalidate(env, t, next.app);
    EndsErasingApp(env, t, next);
    InvalidateErases(env, t, next.app.value);
    assert t1[|t|].ok;
    InvalidateKeeps(env, t1, next.gwui, |t|);
    InvalidateKeeps(env, Invalidate(env, t1, next.gwui), next.nrf52, |t|);
  }

  lemma OnlyOneBootable(start: Option<nat>, slot: nat, bootable: set<nat>)
    requires slot < SLOTS && slot in bootable && bootable <= {0, 1} && 1 - slot !in bootable
    ensures Load(start, SLOTS, bootable) == Some(slot)
  {
    var r := Load(start, SLOTS, bootable);
    assert r.Some? && r.value in bootable;
  }

  /** A failed run of a confirmed image, if that one operation works: the running image is started again, even if the
      run failed half way through the boot switch and whatever the boot record says. */
  lemma FailedUpdateBootsRunning(crc: Crc, env: Env, o: Record, running: nat, next: Bank, bootable: set<nat>)
    requires running < SLOTS && BankApart(next) && next.app.Some? && WholeSectors(next.app.value)
    requires !Run(crc, env, o, running, next).ok && !env.unconfirmed
    requires InvalidatingOp(crc, env, o, running, next) !in env.failing
    requires BootableAfter(bootable, Run(crc, env, o, running, next), running, next)
    ensures Boots(crc, Run(crc, env, o, running, next).record, bootable) == Some(running)
  {
    FailedRunErasesHeader(crc, env, o, running, next);
    OnlyOneBootable(BootOnce(crc, Run(crc, env, o, running, next).record, SLOTS).start, running, bootable);
  }

  lemma SwitchedRecord(crc: Crc, env: Env, o: Record, running: nat, next: Bank)
    requires running < SLOTS && Run(crc, env, o, running, next).ok
    ensures Run(crc, env, o, running, next).record == Switched(crc, o, Some(running), 1 - running, SLOTS)
  {
  }

  lemma StartsThere(slot: nat, bootable: set<nat>)
    requires slot in bootable
    ensures Load(Some(slot), SLOTS, bootable) == Some(slot)
  {
  }

  /** A successful run: the new image is started. */
  lemma SuccessfulUpdateBootsNew(crc: Crc, env: Env, o: Record, running: nat, next: Bank, bootable: set<nat>)
    requires running < SLOTS
    requires var r := Run(crc, env, o, running, next); r.ok && BootableAfter(bootable, r, running, next)
    requires var a := Preserved(crc, o, Some(running), SLOTS);
             a.Some? && RoomAbove(o[a.value].otaSeq, 1 - running, SLOTS) && o[a.value].state != PendingVerify
    ensures Boots(crc, Run(crc, env, o, running, next).record, bootable) == Some(1 - running)
  {
    SwitchedRecord(crc, env, o, running, next);
    NewImageStarts(crc, o, Some(running), 1 - running, SLOTS);
    StartsThere(1 - running, bootable);
  }
}

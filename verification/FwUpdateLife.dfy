/** Update runs in the life of a device: what becomes of it whatever fails in them, and what a run of an unconfirmed
    image costs the image that it is rolled back to. */
module FwUpdateLife {
  import opened Lists
  import opened Numbers
  import opened OtaSeq
  import opened OtaData
  import opened OtaSwitch
  import opened OtaLife
  import opened FwUpdateModel
  import opened FwUpdateTrace
  import opened FwUpdateSafety

  // ---------- runs of an image that is not confirmed ----------

  /** The state in which updates must not be attempted is reached by every update: after its first start the new image
      runs, and the record says that it waits for confirmation. */
  lemma FirstStartIsPending(crc: Crc, d: Device, i: nat, target: nat)
    requires Stable(crc, d, i, SLOTS) && Permitted(d, i, Cycle(target, Unconfirmed), SLOTS)
    ensures var first := FirstStart(crc, d, target, SLOTS);
            first.running == target && PendingVerifyNow(crc, first.record, target)
  {
    FirstBoot(crc, d, i, Cycle(target, Unconfirmed), SLOTS);
    assert SlotFromSeq(d.record[i].otaSeq, SLOTS) == Some(d.running);
  }

  /** If it attempts an update nevertheless and is then given up, the device comes back with the image that was running
      before, and that image's data partitions have lost their first sectors unless both erases failed. */
  lemma RollbackFindsDataInvalidated(crc: Crc, d: Device, i: nat, target: nat, env: Env, bootable: set<nat>)
    requires Stable(crc, d, i, SLOTS) && Permitted(d, i, Cycle(target, Unconfirmed), SLOTS)
    requires env.unconfirmed && d.running < SLOTS && d.running in bootable
    ensures var first := FirstStart(crc, d, target, SLOTS);
            var r := Run(crc, env, first.record, target, BankOf(1 - target));
            var mine := BankOf(d.running);
            && Boots(crc, r.record, bootable) == Some(d.running)
            && Untouched(r.trace, mine.app.value)
            && (FirstSectorErased(r.trace, mine.gwui.value) <==> 0 !in env.failing)
            && (FirstSectorErased(r.trace, mine.nrf52.value) <==> 1 !in env.failing)
  {
    var first := FirstStart(crc, d, target, SLOTS);
    FirstStartIsPending(crc, d, i, target);
    GatewayBanksAreProper(1 - target);
    PendingRunOnlyInvalidates(crc, env, first.record, target, BankOf(1 - target));
    UnconfirmedRunInvalidatesRollbackData(crc, env, first.record, target, BankOf(1 - target));
    FirstBoot(crc, d, i, Cycle(target, Unconfirmed), SLOTS);
    var waiting := Device(first.record, d.running);
    PendingOtherIsStable(crc, d, waiting, i, target, SLOTS);
    StableBootsItself(crc, waiting, i, SLOTS);
    StartsThere(d.running, bootable);
  }

  // ---------- failed runs of a settled device ----------

  lemma FailedRunRecord(crc: Crc, env: Env, o: Record, running: nat, next: Bank)
    requires running < SLOTS && !Run(crc, env, o, running, next).ok
    ensures var o' := Run(crc, env, o, running, next).record;
            o' == o || o' == Interrupted(crc, o, Some(running), 1 - running, SLOTS)
  {
  }

  /** A failed run leaves the record settled, whatever failed in it. */
  lemma FailedRunStaysStable(crc: Crc, env: Env, d: Device, i: nat, next: Bank)
    requires d.running < SLOTS && Stable(crc, d, i, SLOTS) && !Run(crc, env, d.record, d.running, next).ok
    ensures var o := Run(crc, env, d.record, d.running, next).record;
            Stable(crc, Device(o, d.running), i, SLOTS) && o[i] == d.record[i]
  {
    StableIsPreserved(crc, d, i, SLOTS);
    ErasedEntryIsStable(crc, d, i, SLOTS);
    FailedRunRecord(crc, env, d.record, d.running, next);
  }

  /** And then the running image is started again, even if the partitions to be updated could not be invalidated. */
  lemma FailedUpdateOfSettledBootsRunning(crc: Crc, env: Env, d: Device, i: nat, next: Bank, bootable: set<nat>)
    requires d.running < SLOTS && Stable(crc, d, i, SLOTS) && !Run(crc, env, d.record, d.running, next).ok
    requires d.running in bootable
    ensures Boots(crc, Run(crc, env, d.record, d.running, next).record, bootable) == Some(d.running)
  {
    var o := Run(crc, env, d.record, d.running, next).record;
    FailedRunStaysStable(crc, env, d, i, next);
    StableBootsItself(crc, Device(o, d.running), i, SLOTS);
    StartsThere(d.running, bootable);
  }

  // ---------- lives made of runs ----------

  /** What happens after a run that succeeded, as opposed to what happens without one. */
  predicate FollowsSwitch(fate: Fate) {
    !fate.PlainReboot? && !fate.PowerCut? && !fate.CutReboot?
  }

  /** A complete run of an update: the record that it left if it failed, and otherwise what becomes of the new image.
      Or a reboot without a run, or with power failing in its boot switch. */
  datatype Chapter =
    | Updated(env: Env, failed: Option<Record>, fate: Fate)
    | NotUpdated(fate: Fate)

  /** The chapter is what a run under its circumstances comes to. */
  predicate Possible(crc: Crc, d: Device, ch: Chapter)
    requires d.running < SLOTS
  {
    match ch
    case Updated(env, failed, fate) =>
      var r := Run(crc, env, d.record, d.running, BankOf(1 - d.running));
      FollowsSwitch(fate) && failed == if r.ok then None else Some(r.record)
    case NotUpdated(fate) => !FollowsSwitch(fate)
  }

  function Failed(ch: Chapter): Option<Record> {
    if ch.Updated? then ch.failed else None
  }

  /** The new image was started, and confirmed itself. */
  predicate Confirms(ch: Chapter) {
    ch.fate == Confirmed && Failed(ch) == None
  }

  ghost predicate LeavesStable(crc: Crc, d: Device, i: nat, ch: Chapter) {
    && i < 2
    && (Failed(ch).Some? ==>
          Stable(crc, Device(Failed(ch).value, d.running), i, SLOTS) && Failed(ch).value[i] == d.record[i])
  }

  lemma PossibleLeavesStable(crc: Crc, d: Device, i: nat, ch: Chapter)
    requires d.running < SLOTS && Stable(crc, d, i, SLOTS) && Possible(crc, d, ch)
    ensures LeavesStable(crc, d, i, ch)
  {
    if ch.Updated? && ch.failed.Some? {
      FailedRunStaysStable(crc, ch.env, d, i, BankOf(1 - d.running));
    }
  }

  lemma ChapterIsStable(crc: Crc, d: Device, i: nat, ch: Chapter, bootable: set<nat>) returns (j: nat)
    requires d.running < SLOTS && Stable(crc, d, i, SLOTS) && LeavesStable(crc, d, i, ch) && d.running in bootable
    requires d.record[i].otaSeq + SLOTS < UINT32_MAX
    ensures var d' := AfterAttempt(crc, d, Cycle(1 - d.running, ch.fate), Failed(ch), bootable, SLOTS);
            && Stable(crc, d', j, SLOTS)
            && d'.running == (if Confirms(ch) then 1 - d.running else d.running)
            && d.record[i].otaSeq <= d'.record[j].otaSeq <= d.record[i].otaSeq + SLOTS
  {
    j := AttemptIsStable(crc, d, i, Cycle(1 - d.running, ch.fate), Failed(ch), bootable, SLOTS);
  }

  function AfterChapters(crc: Crc, d: Device, chs: seq<Chapter>, bootable: set<nat>): (d': Device)
    requires d.running < SLOTS
    ensures d'.running < SLOTS
  {
    if chs == [] then d
    else
      var before := AfterChapters(crc, d, chs[..|chs| - 1], bootable);
      AfterAttempt(crc, before, Cycle(1 - before.running, Last(chs).fate), Failed(Last(chs)), bootable, SLOTS)
  }

  /** Each chapter is possible, and the image running before it can still be loaded. */
  predicate PossibleLife(crc: Crc, d: Device, chs: seq<Chapter>, bootable: set<nat>)
    requires d.running < SLOTS
  {
    chs == []
    || (&& PossibleLife(crc, d, chs[..|chs| - 1], bootable)
        && var before := AfterChapters(crc, d, chs[..|chs| - 1], bootable);
           before.running in bootable && Possible(crc, before, Last(chs)))
  }

  /** The slot of the image that was confirmed last. */
  function ConfirmedSlot(start: nat, chs: seq<Chapter>): (slot: nat)
    requires start < SLOTS
    ensures slot < SLOTS
  {
    if chs == [] then start
    else
      var slot := ConfirmedSlot(start, chs[..|chs| - 1]);
      if Confirms(Last(chs)) then 1 - slot else slot
  }

  lemma OneMoreChapter(crc: Crc, d: Device, i: nat, ch: Chapter, bootable: set<nat>) returns (j: nat)
    requires d.running < SLOTS && Stable(crc, d, i, SLOTS) && Possible(crc, d, ch) && d.running in bootable
    requires d.record[i].otaSeq + SLOTS < UINT32_MAX
    ensures var d' := AfterAttempt(crc, d, Cycle(1 - d.running, ch.fate), Failed(ch), bootable, SLOTS);
            && Stable(crc, d', j, SLOTS)
            && d'.running == (if Confirms(ch) then 1 - d.running else d.running)
            && d.record[i].otaSeq <= d'.record[j].otaSeq <= d.record[i].otaSeq + SLOTS
  {
    PossibleLeavesStable(crc, d, i, ch);
    j := ChapterIsStable(crc, d, i, ch, bootable);
  }

  /** Over any life of update runs, whatever fails in any of them and whatever else the bootloader could load, the
      device runs the image that was confirmed last, and the record is settled on it. */
  lemma {:induction false} UpdatesKeepLastConfirmed(crc: Crc, d: Device, i: nat, chs: seq<Chapter>, bootable: set<nat>)
    returns (j: nat)
    requires d.running < SLOTS && Stable(crc, d, i, SLOTS) && PossibleLife(crc, d, chs, bootable)
    requires d.record[i].otaSeq + 2 * |chs| < UINT32_MAX
    ensures var d' := AfterChapters(crc, d, chs, bootable);
            && Stable(crc, d', j, SLOTS)
            && d'.running == ConfirmedSlot(d.running, chs)
            && d'.record[j].otaSeq <= d.record[i].otaSeq + 2 * |chs|
  {
    if chs == [] {
      return i;
    }
    var earlier := chs[..|chs| - 1];
    var h := UpdatesKeepLastConfirmed(crc, d, i, earlier, bootable);
    j := OneMoreChapter(crc, AfterChapters(crc, d, earlier, bootable), h, Last(chs), bootable);
  }
}

/** Boot switch and bootloader together, over whole lives of a device: whatever happens to an update, the device
    comes back with the last confirmed image. */
module OtaLife {
  import opened Lists
  import opened Numbers
  import opened OtaSeq
  import opened OtaData
  import opened OtaSwitch

  // ---------- one update ----------

  /** The first boot after a switch with room starts the requested slot and marks it as waiting for confirmation. */
  lemma NewImageStarts(crc: Crc, o: Record, running: Option<nat>, slot: nat, count: nat)
    requires slot < count <= MAX_APP_COUNT
    requires var a := Preserved(crc, o, running, count);
             a.Some? && RoomAbove(o[a.value].otaSeq, slot, count) && o[a.value].state != PendingVerify
    ensures var p := SwitchPlan(crc, o, running, slot, count);
            var o' := Switched(crc, o, running, slot, count);
            BootOnce(crc, o', count) == Boot(o'[p.index := p.entry.(state := PendingVerify)], Some(slot))
  {
    var a := Preserved(crc, o, running, count).value;
    SwitchSelectsTargetIff(crc, o, running, slot, count);
    var o' := Switched(crc, o, running, slot, count);
    assert o'[a] == o[a];
    assert [Expire(o'[0]), Expire(o'[1])] == o';
    BootSlotIsSlot(o'[1 - a].otaSeq, count);
  }

  /** Without a confirmation the next boot gives the new image up and starts the preserved entry's slot. */
  lemma UnconfirmedImageRollsBack(crc: Crc, o: Record, running: Option<nat>, slot: nat, count: nat)
    requires slot < count <= MAX_APP_COUNT
    requires var a := Preserved(crc, o, running, count);
             a.Some? && RoomAbove(o[a.value].otaSeq, slot, count) && o[a.value].state != PendingVerify
    ensures var a := Preserved(crc, o, running, count).value;
            var second := BootOnce(crc, BootOnce(crc, Switched(crc, o, running, slot, count), count).record, count);
            && second.start == Some(BootSlot(o[a].otaSeq, count))
            && second.record[1 - a].state == Aborted
            && second.record[a] == (if o[a].state == New then o[a].(state := PendingVerify) else o[a])
  {
    var a := Preserved(crc, o, running, count).value;
    NewImageStarts(crc, o, running, slot, count);
    var r := BootOnce(crc, Switched(crc, o, running, slot, count), count).record;
    assert r[a] == o[a] && r[1 - a].state == PendingVerify;
  }

  /** Why an unconfirmed running image must not start an update: its own entry would not survive either. */
  lemma PendingPreservedIsLost(crc: Crc, o: Record, running: Option<nat>, slot: nat, count: nat)
    requires slot < count <= MAX_APP_COUNT
    requires var a := Preserved(crc, o, running, count);
             a.Some? && RoomAbove(o[a.value].otaSeq, slot, count) && o[a.value].state == PendingVerify
    ensures var second := BootOnce(crc, BootOnce(crc, Switched(crc, o, running, slot, count), count).record, count);
            !Usable(crc, second.record[0]) && !Usable(crc, second.record[1]) && second.start == Some(0)
  {
    var a := Preserved(crc, o, running, count).value;
    SwitchSelectsTargetIff(crc, o, running, slot, count);
    var o' := Switched(crc, o, running, slot, count);
    assert o'[a] == o[a];
    var r := BootOnce(crc, o', count).record;
    assert r[a].state == Aborted && r[1 - a].state == PendingVerify;
  }

  // ---------- many updates ----------

  datatype Fate =
    | PowerCut       // power fails between erasing and writing the record entry
    | CutMarking     // ... when the bootloader marks the new image as waiting for confirmation
    | CutGivingUp    // ... when the bootloader gives the unconfirmed image up
    | CutConfirming  // ... when the new image confirms itself
    | Damaged        // the new image does not load
    | Unconfirmed    // the new image starts but the device resets before confirming it
    | Confirmed      // the new image starts and is confirmed
    | PlainReboot    // no update at all
    | CutReboot      // ... and power fails when the bootloader gives an unconfirmed image up

  datatype Cycle = Cycle(target: nat, fate: Fate)

  datatype Device = Device(record: Record, running: nat)

  function Reboot(crc: Crc, o: Record, count: nat, bootable: set<nat>, current: nat): (d: Device)
    requires 0 < count <= MAX_APP_COUNT
    ensures current < count ==> d.running < count
  {
    var b := BootOnce(crc, o, count);
    match Load(b.start, count, bootable)
    case Some(slot) => Device(SetActualSeq(crc, b.record, slot), slot)
    case None => Device(b.record, current)
  }

  function Confirm(crc: Crc, d: Device): Device {
    match Active(crc, d.record)
    case Some(a) => d.(record := d.record[a := d.record[a].(state := Valid)])
    case None => d
  }

  // The record when power fails after an entry was erased and before it is written again.

  function ErasedForMarking(crc: Crc, o: Record): Record {
    match Active(crc, o)
    case Some(a) => if o[a].state == New then o[a := ERASED] else o
    case None => o
  }

  function ErasedForGivingUp(o: Record): Record {
    if o[0].state == PendingVerify then o[0 := ERASED]
    else if o[1].state == PendingVerify then o[1 := ERASED]
    else o
  }

  function ErasedForConfirming(crc: Crc, o: Record): Record {
    match Active(crc, o)
    case Some(a) => o[a := ERASED]
    case None => o
  }

  function FirstStart(crc: Crc, d: Device, target: nat, count: nat): (d': Device)
    requires target < count <= MAX_APP_COUNT
    ensures d.running < count ==> d'.running < count
  {
    Reboot(crc, Switched(crc, d.record, Some(d.running), target, count), count, {d.running, target}, d.running)
  }

  /** The record at the reboot that ends an attempt without confirmation. */
  function LeftRecord(crc: Crc, d: Device, c: Cycle, count: nat): Record
    requires c.target < count <= MAX_APP_COUNT
  {
    match c.fate
    case PlainReboot => d.record
    case CutReboot => ErasedForGivingUp(d.record)
    case PowerCut => Interrupted(crc, d.record, Some(d.running), c.target, count)
    case Damaged => Switched(crc, d.record, Some(d.running), c.target, count)
    case CutMarking => ErasedForMarking(crc, Switched(crc, d.record, Some(d.running), c.target, count))
    case CutGivingUp => ErasedForGivingUp(FirstStart(crc, d, c.target, count).record)
    case CutConfirming => ErasedForConfirming(crc, FirstStart(crc, d, c.target, count).record)
    case _ => FirstStart(crc, d, c.target, count).record
  }

  function AfterCycle(crc: Crc, d: Device, c: Cycle, count: nat): (d': Device)
    requires c.target < count <= MAX_APP_COUNT
    ensures d.running < count ==> d'.running < count
  {
    if c.fate == Confirmed then Confirm(crc, FirstStart(crc, d, c.target, count))
    else
      var bootable := if c.fate == Damaged then {d.running} else {d.running, c.target};
      Reboot(crc, LeftRecord(crc, d, c, count), count, bootable, d.running)
  }

  /** Once unconfirmed images are given up, entry `i` is the active one; it is settled and describes the running
      image, and no unconfirmed entry does. */
  ghost predicate Stable(crc: Crc, d: Device, i: nat, count: nat) {
    && i < 2 && count > 0
    && Active(crc, [Expire(d.record[0]), Expire(d.record[1])]) == Some(i)
    && SlotFromSeq(d.record[i].otaSeq, count) == Some(d.running)
    && (d.record[i].state == Valid || d.record[i].state == Undefined)
    && (d.record[1 - i].state == PendingVerify ==> SlotFromSeq(d.record[1 - i].otaSeq, count) != Some(d.running))
  }

  lemma StableIsPreserved(crc: Crc, d: Device, i: nat, count: nat)
    requires Stable(crc, d, i, count)
    ensures Preserved(crc, d.record, Some(d.running), count) == Some(i)
  {
    assert Expire(d.record[i]) == d.record[i];
  }

  lemma StableBootsItself(crc: Crc, d: Device, i: nat, count: nat)
    requires Stable(crc, d, i, count) && count <= MAX_APP_COUNT
    ensures BootOnce(crc, d.record, count) == Boot([Expire(d.record[0]), Expire(d.record[1])], Some(d.running))
  {
    BootSlotIsSlot(d.record[i].otaSeq, count);
    assert Expire(d.record[i]) == d.record[i];
  }

  ghost predicate Permitted(d: Device, i: nat, c: Cycle, count: nat) {
    i < 2 && c.target < count <= MAX_APP_COUNT && c.target != d.running && d.record[i].otaSeq + count < UINT32_MAX
  }

  lemma RoomWhenPermitted(current: uint32, slot: nat, count: nat)
    requires slot < count <= MAX_APP_COUNT && current + count < UINT32_MAX
    ensures RoomAbove(current, slot, count)
  {
  }

  /** Losing the other entry does not matter, whatever else is bootable. */
  lemma ErasedEntryIsStable(crc: Crc, d: Device, i: nat, count: nat)
    requires Stable(crc, d, i, count)
    ensures Stable(crc, Device(d.record[1 - i := ERASED], d.running), i, count)
  {
    var o := d.record[1 - i := ERASED];
    assert o[i] == d.record[i] && o[1 - i] == ERASED;
  }

  lemma RebootIsStable(crc: Crc, d: Device, i: nat, count: nat, bootable: set<nat>, current: nat)
    requires Stable(crc, d, i, count) && count <= MAX_APP_COUNT && d.running in bootable
    ensures var d' := Reboot(crc, d.record, count, bootable, current);
            Stable(crc, d', i, count) && d'.running == d.running && d'.record[i] == d.record[i]
  {
    StableBootsItself(crc, d, i, count);
  }

  /** The device after the first boot of a new image. */
  lemma FirstBoot(crc: Crc, d: Device, i: nat, c: Cycle, count: nat)
    requires Stable(crc, d, i, count) && Permitted(d, i, c, count)
    ensures var o := Switched(crc, d.record, Some(d.running), c.target, count);
            var b := BootOnce(crc, o, count);
            && b.start == Some(c.target)
            && b.record[i] == d.record[i]
            && b.record[1 - i].state == PendingVerify
            && Usable(crc, b.record[1 - i]) && Active(crc, b.record) == Some(1 - i)
            && SlotFromSeq(b.record[1 - i].otaSeq, count) == Some(c.target)
            && d.record[i].otaSeq < b.record[1 - i].otaSeq <= d.record[i].otaSeq + count
  {
    StableIsPreserved(crc, d, i, count);
    RoomWhenPermitted(d.record[i].otaSeq, c.target, count);
    NextSeqIsFirstAbove(d.record[i].otaSeq, c.target, count);
    NewImageStarts(crc, d.record, Some(d.running), c.target, count);
    SwitchSelectsTargetIff(crc, d.record, Some(d.running), c.target, count);
  }

  /** After the first start the new image's entry is the active one and waits for confirmation. */
  lemma CutAfterFirstStart(crc: Crc, d: Device, i: nat, c: Cycle, count: nat)
    requires Stable(crc, d, i, count) && Permitted(d, i, c, count)
    ensures var first := FirstStart(crc, d, c.target, count);
            && ErasedForGivingUp(first.record) == d.record[1 - i := ERASED]
            && ErasedForConfirming(crc, first.record) == d.record[1 - i := ERASED]
  {
    FirstBoot(crc, d, i, c, count);
    var first := FirstStart(crc, d, c.target, count);
    assert first.record[1 - i := ERASED] == d.record[1 - i := ERASED];
  }

  lemma CutBeforeFirstStart(crc: Crc, d: Device, i: nat, c: Cycle, count: nat)
    requires Stable(crc, d, i, count) && Permitted(d, i, c, count)
    ensures Interrupted(crc, d.record, Some(d.running), c.target, count) == d.record[1 - i := ERASED]
    ensures ErasedForMarking(crc, Switched(crc, d.record, Some(d.running), c.target, count))
         == d.record[1 - i := ERASED]
  {
    StableIsPreserved(crc, d, i, count);
    RoomWhenPermitted(d.record[i].otaSeq, c.target, count);
    SwitchSelectsTargetIff(crc, d.record, Some(d.running), c.target, count);
  }

  predicate Cut(fate: Fate) {
    fate.PowerCut? || fate.CutMarking? || fate.CutGivingUp? || fate.CutConfirming?
  }

  /** Wherever power fails after the switch began, the record lacks the new entry and nothing else. */
  lemma CutLosesNewEntry(crc: Crc, d: Device, i: nat, c: Cycle, count: nat)
    requires Stable(crc, d, i, count) && Permitted(d, i, c, count) && Cut(c.fate)
    ensures LeftRecord(crc, d, c, count) == d.record[1 - i := ERASED]
  {
    CutAfterFirstStart(crc, d, i, c, count);
    CutBeforeFirstStart(crc, d, i, c, count);
  }

  lemma CutRebootIsStable(crc: Crc, d: Device, i: nat, count: nat)
    requires Stable(crc, d, i, count)
    ensures Stable(crc, Device(ErasedForGivingUp(d.record), d.running), i, count)
  {
    if d.record[1 - i].state == PendingVerify {
      assert ErasedForGivingUp(d.record) == d.record[1 - i := ERASED];
      ErasedEntryIsStable(crc, d, i, count);
    } else {
      assert ErasedForGivingUp(d.record) == d.record;
    }
  }

  lemma PendingOtherIsStable(crc: Crc, d: Device, d': Device, i: nat, target: nat, count: nat)
    requires Stable(crc, d, i, count) && target != d.running
    requires d'.running == d.running && d'.record[i] == d.record[i] && d'.record[1 - i].state == PendingVerify
    requires SlotFromSeq(d'.record[1 - i].otaSeq, count) == Some(target)
    ensures Stable(crc, d', i, count)
  {
  }

  lemma LoadOnly(start: nat, running: nat, count: nat)
    requires start < count && running < count
    ensures Load(Some(start), count, {running}) == Some(running)
  {
  }

  /** The first start of an image that loads. */
  lemma UnconfirmedIsStable(crc: Crc, d: Device, i: nat, c: Cycle, count: nat)
    requires Stable(crc, d, i, count) && Permitted(d, i, c, count)
    ensures var o := FirstStart(crc, d, c.target, count).record;
            Stable(crc, Device(o, d.running), i, count) && o[i] == d.record[i]
  {
    FirstBoot(crc, d, i, c, count);
    PendingOtherIsStable(crc, d, Device(FirstStart(crc, d, c.target, count).record, d.running), i, c.target, count);
  }

  lemma DamagedIsStable(crc: Crc, d: Device, i: nat, c: Cycle, count: nat)
    requires Stable(crc, d, i, count) && Permitted(d, i, c, count) && c.fate == Damaged
    ensures var d' := AfterCycle(crc, d, c, count);
            Stable(crc, d', i, count) && d'.running == d.running && d'.record[i] == d.record[i]
  {
    FirstBoot(crc, d, i, c, count);
    LoadOnly(c.target, d.running, count);
    PendingOtherIsStable(crc, d, AfterCycle(crc, d, c, count), i, c.target, count);
  }

  /** Apart from an image that does not load, an attempt without confirmation leaves a settled record. */
  lemma LeftRecordIsStable(crc: Crc, d: Device, i: nat, c: Cycle, count: nat)
    requires Stable(crc, d, i, count) && Permitted(d, i, c, count) && !c.fate.Damaged?
    ensures var o := LeftRecord(crc, d, c, count);
            Stable(crc, Device(o, d.running), i, count) && o[i] == d.record[i]
  {
    if Cut(c.fate) {
      CutLosesNewEntry(crc, d, i, c, count);
      ErasedEntryIsStable(crc, d, i, count);
    } else if c.fate == CutReboot {
      CutRebootIsStable(crc, d, i, count);
    } else if c.fate != PlainReboot {
      UnconfirmedIsStable(crc, d, i, c, count);
    }
  }

  lemma NotConfirmedIsStable(crc: Crc, d: Device, i: nat, c: Cycle, count: nat)
    requires Stable(crc, d, i, count) && Permitted(d, i, c, count) && !c.fate.Confirmed?
    ensures var d' := AfterCycle(crc, d, c, count);
            Stable(crc, d', i, count) && d'.running == d.running && d'.record[i] == d.record[i]
  {
    if c.fate == Damaged {
      DamagedIsStable(crc, d, i, c, count);
    } else {
      var o := LeftRecord(crc, d, c, count);
      LeftRecordIsStable(crc, d, i, c, count);
      RebootIsStable(crc, Device(o, d.running), i, count, {d.running, c.target}, d.running);
    }
  }

  /** Confirming settles the entry that counts, if the other one is settled already. */
  lemma ConfirmSettles(crc: Crc, first: Device, i: nat, count: nat)
    requires i < 2 && count > 0 && Active(crc, first.record) == Some(1 - i)
    requires SlotFromSeq(first.record[1 - i].otaSeq, count) == Some(first.running)
    requires first.record[i].state == Valid || first.record[i].state == Undefined
    ensures var d := Confirm(crc, first);
            && Stable(crc, d, 1 - i, count) && d.running == first.running
            && d.record[i] == first.record[i] && d.record[1 - i].otaSeq == first.record[1 - i].otaSeq
  {
    var d := Confirm(crc, first);
    assert d.record[i] == first.record[i] && d.record[1 - i].state == Valid;
    assert [Expire(d.record[0]), Expire(d.record[1])] == d.record;
  }

  lemma ConfirmedIsStable(crc: Crc, d: Device, i: nat, c: Cycle, count: nat)
    requires Stable(crc, d, i, count) && Permitted(d, i, c, count) && c.fate == Confirmed
    ensures Stable(crc, AfterCycle(crc, d, c, count), 1 - i, count)
    ensures AfterCycle(crc, d, c, count).running == c.target
    ensures AfterCycle(crc, d, c, count).record[i] == d.record[i]
    ensures d.record[i].otaSeq < AfterCycle(crc, d, c, count).record[1 - i].otaSeq <= d.record[i].otaSeq + count
  {
    FirstBoot(crc, d, i, c, count);
    ConfirmSettles(crc, FirstStart(crc, d, c.target, count), i, count);
  }

  /** One attempt, whatever its fate: a settled entry describes the image that is running then, which is another one
      only if it was confirmed, and its number has grown by at most `count`. */
  lemma CycleIsStable(crc: Crc, d: Device, i: nat, c: Cycle, count: nat) returns (j: nat)
    requires Stable(crc, d, i, count) && Permitted(d, i, c, count)
    ensures var d' := AfterCycle(crc, d, c, count);
            && Stable(crc, d', j, count)
            && d'.running == (if c.fate == Confirmed then c.target else d.running)
            && d.record[i].otaSeq <= d'.record[j].otaSeq <= d.record[i].otaSeq + count
  {
    if c.fate == Confirmed {
      ConfirmedIsStable(crc, d, i, c, count);
      j := 1 - i;
    } else {
      NotConfirmedIsStable(crc, d, i, c, count);
      j := i;
    }
  }

  /** An attempt that may have failed before its fate: then the device reboots with the record that this left. */
  function AfterAttempt(crc: Crc, d: Device, c: Cycle, failed: Option<Record>, bootable: set<nat>, count: nat)
    : (d': Device)
    requires c.target < count <= MAX_APP_COUNT
    ensures d.running < count ==> d'.running < count
  {
    match failed
    case Some(o) => Reboot(crc, o, count, bootable, d.running)
    case None => AfterCycle(crc, d, c, count)
  }

  lemma AttemptIsStable(crc: Crc, d: Device, i: nat, c: Cycle, failed: Option<Record>, bootable: set<nat>, count: nat)
    returns (j: nat)
    requires Stable(crc, d, i, count) && Permitted(d, i, c, count) && d.running in bootable
    requires failed.Some? ==> Stable(crc, Device(failed.value, d.running), i, count) && failed.value[i] == d.record[i]
    ensures var d' := AfterAttempt(crc, d, c, failed, bootable, count);
            && Stable(crc, d', j, count)
            && d'.running == (if failed.None? && c.fate == Confirmed then c.target else d.running)
            && d.record[i].otaSeq <= d'.record[j].otaSeq <= d.record[i].otaSeq + count
  {
    match failed {
      case Some(o) =>
        RebootIsStable(crc, Device(o, d.running), i, count, bootable, d.running);
        j := i;
      case None =>
        j := CycleIsStable(crc, d, i, c, count);
    }
  }

  function AfterCycles(crc: Crc, d: Device, cs: seq<Cycle>, count: nat): Device
    requires count <= MAX_APP_COUNT && forall k :: 0 <= k < |cs| ==> cs[k].target < count
  {
    if cs == [] then d else AfterCycle(crc, AfterCycles(crc, d, cs[..|cs| - 1], count), Last(cs), count)
  }

  /** The slot whose image was confirmed last. */
  function LastConfirmed(start: nat, cs: seq<Cycle>): nat {
    if cs == [] then start
    else if Last(cs).fate == Confirmed then Last(cs).target
    else LastConfirmed(start, cs[..|cs| - 1])
  }

  predicate UpdatesInactiveSlots(start: nat, cs: seq<Cycle>, count: nat) {
    cs == []
    || (UpdatesInactiveSlots(start, cs[..|cs| - 1], count)
        && Last(cs).target < count && Last(cs).target != LastConfirmed(start, cs[..|cs| - 1]))
  }

  lemma {:induction false} InactiveSlotsExist(start: nat, cs: seq<Cycle>, count: nat)
    requires UpdatesInactiveSlots(start, cs, count)
    ensures forall k :: 0 <= k < |cs| ==> cs[k].target < count
  {
    if cs != [] {
      InactiveSlotsExist(start, cs[..|cs| - 1], count);
      assert forall k :: 0 <= k < |cs| - 1 ==> cs[k] == cs[..|cs| - 1][k];
    }
  }

  /** Over any life of update attempts and reboots the running image is the last confirmed one, a settled entry
      describes it, and its sequence number has grown by at most `count` per attempt. */
  lemma {:induction false} DeviceRunsLastConfirmed(crc: Crc, d: Device, i: nat, cs: seq<Cycle>, count: nat)
    returns (j: nat)
    requires count <= MAX_APP_COUNT && Stable(crc, d, i, count)
    requires UpdatesInactiveSlots(d.running, cs, count)
    requires Grown(d.record[i].otaSeq, |cs|, count) < UINT32_MAX
    ensures forall k :: 0 <= k < |cs| ==> cs[k].target < count
    ensures var d' := AfterCycles(crc, d, cs, count);
            && Stable(crc, d', j, count)
            && d'.running == LastConfirmed(d.running, cs)
            && d.record[i].otaSeq <= d'.record[j].otaSeq <= Grown(d.record[i].otaSeq, |cs|, count)
  {
    InactiveSlotsExist(d.running, cs, count);
    if cs == [] {
      return i;
    }
    var earlier, c := cs[..|cs| - 1], Last(cs);
    OneMore(d.record[i].otaSeq, |earlier|, count);
    var h := DeviceRunsLastConfirmed(crc, d, i, earlier, count);
    j := CycleIsStable(crc, AfterCycles(crc, d, earlier, count), h, c, count);
  }

  // ---------- a gateway started for the first time ----------

  /** Without any contents the bootloader loads the first bootable slot and settles the record on it; if power fails in
      that, the record is as good as before. */
  lemma InitialBecomesStable(crc: Crc, o: Record, count: nat, bootable: set<nat>, slot: nat, current: nat)
    requires Initial(crc, [Expire(o[0]), Expire(o[1])]) && slot < count <= MAX_APP_COUNT
    requires slot in bootable && forall s: nat :: s < slot ==> s !in bootable
    ensures var d := Reboot(crc, o, count, bootable, current);
            Stable(crc, d, 0, count) && d.running == slot && d.record[0].otaSeq == slot + 1
    ensures Initial(crc, [ERASED, Expire(o[1])])
  {
    var expired: Record := [Expire(o[0]), Expire(o[1])];
    assert BootOnce(crc, o, count) == Boot(expired, Some(0));
    assert Load(Some(0), count, bootable) == Some(slot);
    var d := Reboot(crc, o, count, bootable, current);
    assert d.record[0] == Entry(slot + 1, Valid, crc(slot + 1)) && d.record[1] == expired[1];
    SmallMod(slot, count);
  }

  /** The whole life of a gateway from its first start on. */
  lemma LifeFromFirstStart(crc: Crc, cs: seq<Cycle>, count: nat, bootable: set<nat>) returns (j: nat)
    requires 0 < count <= MAX_APP_COUNT && 0 in bootable
    requires UpdatesInactiveSlots(0, cs, count) && Grown(1, |cs|, count) < UINT32_MAX
    ensures forall k :: 0 <= k < |cs| ==> cs[k].target < count
    ensures var d := AfterCycles(crc, Reboot(crc, [ERASED, ERASED], count, bootable, 0), cs, count);
            Stable(crc, d, j, count) && d.running == LastConfirmed(0, cs)
  {
    InitialBecomesStable(crc, [ERASED, ERASED], count, bootable, 0, 0);
    j := DeviceRunsLastConfirmed(crc, Reboot(crc, [ERASED, ERASED], count, bootable, 0), 0, cs, count);
  }
}

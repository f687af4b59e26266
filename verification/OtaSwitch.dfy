/** What a boot switch guarantees, whatever the record held before and wherever power fails. */
module OtaSwitch {
  import opened Lists
  import opened Numbers
  import opened OtaSeq
  import opened OtaData

  lemma BootSlotIsSlot(otaSeq: uint32, count: nat)
    requires count > 0 && otaSeq != 0 && otaSeq != UINT32_MAX
    ensures SlotFromSeq(otaSeq, count) == Some(BootSlot(otaSeq, count))
  {
  }

  ghost predicate Selects(crc: Crc, o: Record, index: nat, slot: nat, count: nat) {
    Active(crc, o) == Some(index) && index < 2 && SlotFromSeq(o[index].otaSeq, count) == Some(slot)
  }

  /** The number the new entry continues from leaves room for the next one. */
  predicate RoomAbove(current: uint32, slot: nat, count: nat)
    requires slot < count
  {
    SumFits(current, slot, count) && IdealNext(current, slot, count) < UINT32_MAX
  }

  lemma NextSeqDiffers(current: uint32, slot: nat, count: nat)
    requires slot < count <= MAX_APP_COUNT
    ensures NextSeq(current, slot, count) != current
  {
    if SumFits(current, slot, count) {
      NextSeqWhenSumFits(current, slot, count);
      var ideal := IdealNext(current, slot, count);
      assert ideal >= UINT32_MOD ==> AsUint32(ideal) == ideal - UINT32_MOD;
    } else {
      NextSeqWhenSumWraps(current, slot, count);
    }
  }

  /** Beside a usable entry, a well-formed new one is active exactly when its number is higher and not reserved. */
  lemma NewEntryActiveIff(crc: Crc, o: Record, a: nat, n: uint32)
    requires a < 2 && Usable(crc, o[a]) && n != o[a].otaSeq
    ensures Active(crc, o[1 - a := Entry(n, New, crc(n))]) == Some(1 - a) <==> n > o[a].otaSeq && n != UINT32_MAX
  {
    var o' := o[1 - a := Entry(n, New, crc(n))];
    assert o'[a] == o[a] && o'[1 - a] == Entry(n, New, crc(n));
    if a == 0 {} else {}
  }

  lemma NextSeqHasSlot(current: uint32, slot: nat, count: nat)
    requires slot < count <= MAX_APP_COUNT && RoomAbove(current, slot, count)
    ensures SlotFromSeq(NextSeq(current, slot, count), count) == Some(slot)
  {
    NextSeqWhenSumFits(current, slot, count);
    IdealNextHasSlot(current, slot, count);
  }

  /** With a usable entry to preserve, the switch makes the bootloader pick the new entry, for the requested slot,
      exactly when the sequence numbers have room. */
  lemma SwitchSelectsTargetIff(crc: Crc, o: Record, running: Option<nat>, slot: nat, count: nat)
    requires slot < count <= MAX_APP_COUNT
    requires Preserved(crc, o, running, count).Some?
    ensures var a := Preserved(crc, o, running, count).value;
            Selects(crc, Switched(crc, o, running, slot, count), 1 - a, slot, count)
            <==> RoomAbove(o[a].otaSeq, slot, count)
  {
    var a := Preserved(crc, o, running, count).value;
    var current := o[a].otaSeq;
    NextSeqAdvancesIff(current, slot, count);
    NextSeqDiffers(current, slot, count);
    NewEntryActiveIff(crc, o, a, NextSeq(current, slot, count));
    if RoomAbove(current, slot, count) { NextSeqHasSlot(current, slot, count); }
  }

  lemma TwoSlotsIdeal(current: uint32, slot: nat)
    requires slot < 2 && current != UINT32_MAX
    ensures IdealNext(current, slot, 2) == current + if current % 2 == slot then 1 else 2
  {
    IdealNextHasSlot(current, slot, 2);
  }

  /** The same for the two slots of this gateway, where only the number itself can be too large. Odd numbers
      stand for slot 0 and even ones for slot 1. */
  lemma TwoSlotsSelectIff(crc: Crc, o: Record, running: Option<nat>, slot: nat)
    requires slot < 2 && Preserved(crc, o, running, 2).Some?
    ensures var a := Preserved(crc, o, running, 2).value;
            var current := o[a].otaSeq;
            Selects(crc, Switched(crc, o, running, slot, 2), 1 - a, slot, 2)
            <==> current + (if current % 2 == slot then 1 else 2) < UINT32_MAX
  {
    var current := o[Preserved(crc, o, running, 2).value].otaSeq;
    SwitchSelectsTargetIff(crc, o, running, slot, 2);
    TwoSlotsNeverOverflow(current, slot);
    TwoSlotsIdeal(current, slot);
  }

  /** With no usable entry the switch always succeeds. */
  lemma SwitchFromNothing(crc: Crc, o: Record, running: Option<nat>, slot: nat, count: nat)
    requires slot < count <= MAX_APP_COUNT
    requires Preserved(crc, o, running, count).None?
    ensures Selects(crc, Switched(crc, o, running, slot, count), 0, slot, count)
  {
    SmallMod(slot, count);
  }

  /** The other entry is untouched, usable if any entry was, and describes the running image if any usable one did. */
  lemma SwitchPreserves(crc: Crc, o: Record, running: Option<nat>, slot: nat, count: nat)
    requires slot < count <= MAX_APP_COUNT
    ensures var other := 1 - SwitchPlan(crc, o, running, slot, count).index;
            && Switched(crc, o, running, slot, count)[other] == o[other]
            && Interrupted(crc, o, running, slot, count)[other] == o[other]
            && ((exists i :: 0 <= i < 2 && Usable(crc, o[i])) ==> Usable(crc, o[other]))
            && ((exists i :: 0 <= i < 2 && Describes(crc, o[i], running, count)) ==>
                  Describes(crc, o[other], running, count))
  {
    if i :| 0 <= i < 2 && Describes(crc, o[i], running, count) {
      assert Usable(crc, o[0]) || Usable(crc, o[1]);
    }
  }

  /** A power failure between erase and write leaves the preserved entry selected. */
  lemma PowerCutKeepsPreserved(crc: Crc, o: Record, running: Option<nat>, slot: nat, count: nat)
    requires slot < count <= MAX_APP_COUNT
    ensures Active(crc, Interrupted(crc, o, running, slot, count)) == Preserved(crc, o, running, count)
  {
    var p := SwitchPlan(crc, o, running, slot, count);
    var o' := Interrupted(crc, o, running, slot, count);
    assert o'[p.index] == ERASED && o'[1 - p.index] == o[1 - p.index];
  }

  /** However setting the boot partition ends: the preserved entry is untouched, the record is switched if and only if
      the answer is Ok, and unless it is, an entry that was preserved or active before is active. */
  lemma SetBootKeepsPreserved(crc: Crc, o: Record, present: bool, slot: nat, imageVerifies: bool, running: Option<nat>,
                              count: nat, flash: Flash)
    requires slot < count <= MAX_APP_COUNT
    ensures var (r, o') := SetBoot(crc, o, present, Ota(slot), imageVerifies, running, count, flash);
            var p := SwitchPlan(crc, o, running, slot, count);
            && o'[1 - p.index] == o[1 - p.index]
            && (r == Ok <==> present && imageVerifies && flash[p.index].erases && flash[p.index].writes)
            && (r == Ok ==> o' == Switched(crc, o, running, slot, count))
            && (r != Ok ==> o' == o || o' == Interrupted(crc, o, running, slot, count))
            && (r != Ok ==> Active(crc, o') == Active(crc, o) || Active(crc, o') == Preserved(crc, o, running, count))
  {
    PowerCutKeepsPreserved(crc, o, running, slot, count);
  }

  /** After a switch with room, asking for the state of the requested slot answers that its image is new, unless the
      preserved entry comes first and stands for the same slot. */
  lemma StateAfterSwitch(crc: Crc, o: Record, running: Option<nat>, slot: nat, count: nat)
    requires slot < count <= MAX_APP_COUNT
    requires var a := Preserved(crc, o, running, count); a.Some? && RoomAbove(o[a.value].otaSeq, slot, count)
    ensures var a := Preserved(crc, o, running, count).value;
            GetState(crc, Switched(crc, o, running, slot, count), slot, count)
            == if a == 0 && SlotFromSeq(o[0].otaSeq, count) == Some(slot) then Found(o[0].state) else Found(New)
  {
    var a := Preserved(crc, o, running, count).value;
    NextSeqHasSlot(o[a].otaSeq, slot, count);
    var o' := Switched(crc, o, running, slot, count);
    assert o'[a] == o[a];
  }

  // ---------- runs of successful updates ----------

  datatype Update = Update(running: nat, target: nat)

  function AfterUpdates(crc: Crc, o: Record, us: seq<Update>, count: nat): Record
    requires count <= MAX_APP_COUNT && forall k :: 0 <= k < |us| ==> us[k].target < count
  {
    if us == [] then o
    else Switched(crc, AfterUpdates(crc, o, us[..|us| - 1], count), Some(Last(us).running), Last(us).target, count)
  }

  ghost predicate SomeDescribes(crc: Crc, o: Record, running: nat, count: nat) {
    Describes(crc, o[0], Some(running), count) || Describes(crc, o[1], Some(running), count)
  }

  /** Each update starts from an image that some usable entry describes. */
  ghost predicate EachDescribed(crc: Crc, o: Record, us: seq<Update>, count: nat)
    requires count <= MAX_APP_COUNT && forall k :: 0 <= k < |us| ==> us[k].target < count
  {
    us == [] || (EachDescribed(crc, o, us[..|us| - 1], count)
                 && SomeDescribes(crc, AfterUpdates(crc, o, us[..|us| - 1], count), Last(us).running, count))
  }

  predicate SeqsAtMost(crc: Crc, o: Record, m: nat) {
    (Usable(crc, o[0]) ==> o[0].otaSeq <= m) && (Usable(crc, o[1]) ==> o[1].otaSeq <= m)
  }

  /** The record after one successful update: the entry that describes the image running at update time survives,
      the other one is selected for the target, with a higher number. */
  ghost predicate Succeeded(crc: Crc, o: Record, o': Record, u: Update, count: nat) {
    exists i :: 0 <= i < 2 && o'[i] == o[i] && Describes(crc, o'[i], Some(u.running), count)
                && Selects(crc, o', 1 - i, u.target, count) && o'[1 - i].otaSeq > o'[i].otaSeq
  }

  lemma OneUpdate(crc: Crc, o: Record, u: Update, count: nat, m: nat)
    requires u.target < count <= MAX_APP_COUNT && SomeDescribes(crc, o, u.running, count)
    requires SeqsAtMost(crc, o, m) && m + count < UINT32_MAX
    ensures var o' := Switched(crc, o, Some(u.running), u.target, count);
            Succeeded(crc, o, o', u, count) && SeqsAtMost(crc, o', m + count)
  {
    var a := Preserved(crc, o, Some(u.running), count).value;
    var o' := Switched(crc, o, Some(u.running), u.target, count);
    NextSeqIsFirstAbove(o[a].otaSeq, u.target, count);
    SwitchSelectsTargetIff(crc, o, Some(u.running), u.target, count);
    SwitchPreserves(crc, o, Some(u.running), u.target, count);
    assert o'[a] == o[a];
    assert 0 <= a < 2 && Describes(crc, o'[a], Some(u.running), count);
  }

  /** An upper bound for the numbers after `n` updates. */
  function Grown(m: nat, n: nat, count: nat): nat {
    m + n * count
  }

  lemma OneMore(m: nat, n: nat, count: nat)
    ensures Grown(m, n + 1, count) == Grown(m, n, count) + count
  {
  }

  /** Over any run of updates each new number exceeds the preserved one, the preserved entry describes the image that
      was running, and numbers grow by at most `count` per update. */
  lemma {:induction false} UpdatesOverRuns(crc: Crc, o: Record, us: seq<Update>, count: nat, m: nat)
    requires count <= MAX_APP_COUNT && forall k :: 0 <= k < |us| ==> us[k].target < count
    requires EachDescribed(crc, o, us, count)
    requires Grown(m, |us|, count) < UINT32_MAX
    requires SeqsAtMost(crc, o, m)
    ensures SeqsAtMost(crc, AfterUpdates(crc, o, us, count), Grown(m, |us|, count))
    ensures us != [] ==> Succeeded(crc, AfterUpdates(crc, o, us[..|us| - 1], count),
                                   AfterUpdates(crc, o, us, count), Last(us), count)
  {
    if us == [] {
    } else {
      var earlier := us[..|us| - 1];
      var m' := Grown(m, |earlier|, count);
      OneMore(m, |earlier|, count);
      UpdatesOverRuns(crc, o, earlier, count, m);
      OneUpdate(crc, AfterUpdates(crc, o, earlier, count), Last(us), count, m');
    }
  }
}

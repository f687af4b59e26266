/** The two-entry boot selection record, the bootloader's rules for it, and the plan of a boot switch. */
module OtaData {
  import opened Lists
  import opened Numbers
  import opened OtaSeq

  datatype ImgState = New | PendingVerify | Valid | Invalid | Aborted | Undefined

  datatype Entry = Entry(otaSeq: uint32, state: ImgState, crc: uint32)

  /** The checksum is a function of the sequence number alone; nothing else about it matters here. */
  type Crc = uint32 -> uint32

  type Record = o: seq<Entry> | |o| == 2 witness [ERASED, ERASED]

  /** What an erased flash sector reads as. */
  const ERASED := Entry(UINT32_MAX, Undefined, UINT32_MAX)

  // ---------- bootloader rules ----------

  predicate SelectInvalid(e: Entry) {
    e.otaSeq == UINT32_MAX || e.state == Invalid || e.state == Aborted
  }

  predicate Usable(crc: Crc, e: Entry) {
    !SelectInvalid(e) && e.crc == crc(e.otaSeq)
  }

  /** The entry that counts: of two usable ones the one with the higher number, the first one on a tie. */
  function Active(crc: Crc, o: Record): (a: Option<nat>)
    ensures a.Some? ==> a.value < 2 && Usable(crc, o[a.value])
    ensures forall i :: 0 <= i < 2 && Usable(crc, o[i]) ==>
                          && a.Some? && o[i].otaSeq <= o[a.value].otaSeq
                          && (o[i].otaSeq == o[a.value].otaSeq ==> a.value <= i)
  {
    if Usable(crc, o[0]) && Usable(crc, o[1]) then
      var condition := if o[0].otaSeq > o[1].otaSeq then o[0].otaSeq else o[1].otaSeq;
      if condition == o[0].otaSeq then Some(0) else Some(1)
    else if Usable(crc, o[0]) then Some(0)
    else if Usable(crc, o[1]) then Some(1)
    else None
  }

  /** The bootloader's own mapping has no special numbers. */
  function BootSlot(otaSeq: uint32, count: nat): (slot: nat)
    requires count > 0
    ensures slot < count
  {
    AsUint32(otaSeq - 1) % count
  }

  function Expire(e: Entry): Entry {
    if e.state == PendingVerify then e.(state := Aborted) else e
  }

  datatype Boot = Boot(record: Record, start: Option<nat>)

  /** One pass of the bootloader with rollback enabled and no factory partition: unconfirmed images are given up,
      then a slot to start from is chosen; a new image is marked as waiting for confirmation. */
  function BootOnce(crc: Crc, o: Record, count: nat): (b: Boot)
    requires count > 0
    ensures b.start.Some? ==> b.start.value < count
  {
    var expired: Record := [Expire(o[0]), Expire(o[1])];
    if SelectInvalid(expired[0]) && SelectInvalid(expired[1]) then Boot(expired, Some(0))
    else
      match Active(crc, expired)
      case None => Boot(expired, None)
      case Some(a) =>
        var started: Record :=
          if expired[a].state == New then expired[a := expired[a].(state := PendingVerify)] else expired;
        Boot(started, Some(BootSlot(expired[a].otaSeq, count)))
  }

  /** From the starting slot the bootloader tries downwards to slot 0, then upwards, until an image loads. */
  function LoadDown(index: int, bootable: set<nat>): (r: Option<nat>)
    ensures r.Some? ==> r.value in bootable && r.value <= index
    ensures r.Some? ==> forall s: nat :: r.value < s <= index ==> s !in bootable
    ensures r.None? ==> forall s: nat :: s <= index ==> s !in bootable
    decreases index + 1
  {
    if index < 0 then None
    else if index in bootable then Some(index)
    else LoadDown(index - 1, bootable)
  }

  function LoadUp(index: nat, count: nat, bootable: set<nat>): (r: Option<nat>)
    ensures r.Some? ==> r.value in bootable && index <= r.value < count
    ensures r.Some? ==> forall s: nat :: index <= s < r.value ==> s !in bootable
    ensures r.None? ==> forall s: nat :: index <= s < count ==> s !in bootable
    decreases count - index
  {
    if index >= count then None
    else if index in bootable then Some(index)
    else LoadUp(index + 1, count, bootable)
  }

  /** The nearest slot below the starting one, itself included, is preferred to every one above. */
  function Load(start: Option<nat>, count: nat, bootable: set<nat>): (r: Option<nat>)
    ensures r.Some? ==> r.value in bootable
    ensures r.Some? && (start.Some? ==> start.value < count) ==> r.value < count
    ensures r.None? ==> forall s: nat :: s < count ==> s !in bootable
    ensures r.Some? && start.Some? && r.value <= start.value ==>
              forall s: nat :: r.value < s <= start.value ==> s !in bootable
    ensures r.Some? && (start.None? || r.value > start.value) ==>
              r.value < count && forall s: nat :: s < r.value ==> s !in bootable
  {
    var index := if start.Some? then start.value else -1;
    var down := LoadDown(index, bootable);
    if down.Some? then down else LoadUp(index + 1, count, bootable)
  }

  /** Neither entry has any contents: for the bootloader that is a gateway started for the first time. */
  predicate Initial(crc: Crc, o: Record) {
    && SelectInvalid(o[0]) && SelectInvalid(o[1])
    && (o[0].otaSeq == UINT32_MAX || o[0].crc != crc(o[0].otaSeq))
    && (o[1].otaSeq == UINT32_MAX || o[1].crc != crc(o[1].otaSeq))
  }

  /** Then it writes an entry for the slot whose image it loaded. */
  function SetActualSeq(crc: Crc, o: Record, slot: nat): Record
    requires slot < MAX_APP_COUNT
  {
    if Initial(crc, o) then o[0 := Entry(slot + 1, Valid, crc(slot + 1))] else o
  }

  // ---------- the plan of a boot switch ----------

  function FindForSlot(crc: Crc, o: Record, slot: Option<nat>, count: nat): (i: Option<nat>)
    ensures i.Some? ==> i.value < 2 && slot.Some? && SlotFromSeq(o[i.value].otaSeq, count) == slot
                        && Usable(crc, o[i.value])
    ensures i == Some(1) ==> !(SlotFromSeq(o[0].otaSeq, count) == slot && Usable(crc, o[0]))
    ensures i.None? && slot.Some? ==>
              forall j: nat :: j < 2 && SlotFromSeq(o[j].otaSeq, count) == slot ==> !Usable(crc, o[j])
  {
    if slot.None? then None
    else if SlotFromSeq(o[0].otaSeq, count) == slot && Usable(crc, o[0]) then Some(0)
    else if SlotFromSeq(o[1].otaSeq, count) == slot && Usable(crc, o[1]) then Some(1)
    else None
  }

  ghost predicate Describes(crc: Crc, e: Entry, running: Option<nat>, count: nat) {
    Usable(crc, e) && running.Some? && SlotFromSeq(e.otaSeq, count) == running
  }

  /** The entry to preserve: the active one, unless it stands for another slot than the one that is running and
      some usable entry stands for the running one. */
  function Preserved(crc: Crc, o: Record, running: Option<nat>, count: nat): (a: Option<nat>)
    ensures a.Some? ==> a.value < 2 && Usable(crc, o[a.value])
    ensures a.None? ==> !Usable(crc, o[0]) && !Usable(crc, o[1])
    ensures forall i :: 0 <= i < 2 && Describes(crc, o[i], running, count) ==>
                          a.Some? && Describes(crc, o[a.value], running, count)
    ensures a != Active(crc, o) ==>
              && Active(crc, o).Some? && !Describes(crc, o[Active(crc, o).value], running, count)
              && a.Some? && Describes(crc, o[a.value], running, count)
  {
    var active := Active(crc, o);
    if active.Some? && running.Some? && SlotFromSeq(o[active.value].otaSeq, count) != running then
      var found := FindForSlot(crc, o, running, count);
      if found.Some? then found else active
    else active
  }

  /** Which entry is replaced, and by what. */
  datatype NewEntry = NewEntry(index: nat, entry: Entry)

  function SwitchPlan(crc: Crc, o: Record, running: Option<nat>, slot: nat, count: nat): (p: NewEntry)
    requires slot < count <= MAX_APP_COUNT
    ensures p.index < 2
    ensures p.entry.state == New && p.entry.crc == crc(p.entry.otaSeq)
  {
    match Preserved(crc, o, running, count)
    case Some(a) =>
      var n := NextSeq(o[a].otaSeq, slot, count);
      NewEntry(1 - a, Entry(n, New, crc(n)))
    case None => NewEntry(0, Entry(slot + 1, New, crc(slot + 1)))
  }

  function Switched(crc: Crc, o: Record, running: Option<nat>, slot: nat, count: nat): Record
    requires slot < count <= MAX_APP_COUNT
  {
    var p := SwitchPlan(crc, o, running, slot, count);
    o[p.index := p.entry]
  }

  /** The record when power fails between erasing the sector and writing the new entry. */
  function Interrupted(crc: Crc, o: Record, running: Option<nat>, slot: nat, count: nat): Record
    requires slot < count <= MAX_APP_COUNT
  {
    o[SwitchPlan(crc, o, running, slot, count).index := ERASED]
  }

  // ---------- the boot switch, whatever fails in it ----------

  datatype Error = Ok | NoSuchEntry | InvalidArg | FlashError | ValidateFailed | NotSupported | CrcError

  datatype Kind = Factory | Ota(slot: nat) | OtherApp | DataPartition

  /** How a sector of the record behaves. An erase that fails may have erased the sector or not. */
  datatype SectorFlash = SectorFlash(erases: bool, erasedAnyway: bool, writes: bool)

  type Flash = f: seq<SectorFlash> | |f| == 2 witness [SectorFlash(true, true, true), SectorFlash(true, true, true)]

  function AfterErase(o: Record, i: nat, f: SectorFlash): Record
    requires i < 2
  {
    if f.erases || f.erasedAnyway then o[i := ERASED] else o
  }

  function Rewrite(o: Record, i: nat, entry: Entry, f: SectorFlash): (Error, Record)
    requires i < 2
  {
    if !f.erases then (FlashError, AfterErase(o, i, f))
    else if !f.writes then (FlashError, o[i := ERASED])
    else (Ok, o[i := entry])
  }

  /** For the factory image the record is erased, sector by sector. */
  function EraseRecord(o: Record, flash: Flash): (Error, Record) {
    var first := AfterErase(o, 0, flash[0]);
    if !flash[0].erases then (FlashError, first)
    else (if flash[1].erases then Ok else FlashError, AfterErase(first, 1, flash[1]))
  }

  function RewriteFor(crc: Crc, o: Record, present: bool, slot: nat, running: Option<nat>, count: nat, flash: Flash)
    : (Error, Record)
    requires count <= MAX_APP_COUNT
  {
    if !present then (NoSuchEntry, o)
    else if slot >= count then (InvalidArg, o)
    else
      var p := SwitchPlan(crc, o, running, slot, count);
      Rewrite(o, p.index, p.entry, flash[p.index])
  }

  /** Setting the boot partition: the answer and the record it leaves. */
  function SetBoot(crc: Crc, o: Record, present: bool, kind: Kind, imageVerifies: bool, running: Option<nat>,
                   count: nat, flash: Flash): (Error, Record)
    requires count <= MAX_APP_COUNT
  {
    if kind.DataPartition? || kind.OtherApp? then (InvalidArg, o)
    else if !imageVerifies then (ValidateFailed, o)
    else if kind.Ota? then RewriteFor(crc, o, present, kind.slot, running, count, flash)
    else if present then EraseRecord(o, flash)
    else (NoSuchEntry, o)
  }

  // ---------- reading the state of a slot ----------

  datatype StateResult = Found(state: ImgState) | InvalidCrc | NotFound

  function GetState(crc: Crc, o: Record, slot: nat, count: nat): StateResult {
    var hit := i requires 0 <= i < 2 => SlotFromSeq(o[i].otaSeq, count) == Some(slot);
    if hit(0) && o[0].crc == crc(o[0].otaSeq) then Found(o[0].state)
    else if hit(1) && o[1].crc == crc(o[1].otaSeq) then Found(o[1].state)
    else if hit(0) || hit(1) then InvalidCrc
    else NotFound
  }
}

/** The boot selection record in flash, and the firmware's operations on it. Erasing and writing a sector are
    separate steps; either may fail. */
module OtaPartition {
  import opened Lists
  import opened Numbers
  import opened OtaSeq
  import opened OtaData
  import opened OtaSwitch

  class OtaPartition {
    const present: bool
    const appCount: nat
    const sectors: array<Entry>

    ghost predicate ValidPartition()
      reads this
    {
      sectors.Length == 2 && appCount <= MAX_APP_COUNT
    }

    constructor (present: bool, appCount: nat, first: Entry, second: Entry)
      requires appCount <= MAX_APP_COUNT
      ensures ValidPartition() && fresh(sectors) && sectors[..] == [first, second]
      ensures this.present == present && this.appCount == appCount
    {
      this.present := present;
      this.appCount := appCount;
      sectors := new Entry[2](i => if i == 0 then first else second);
    }

    /** A failed erase leaves the sector as it was or already erased. */
    method EraseSector(i: nat) returns (ok: bool, ghost f: SectorFlash)
      requires ValidPartition() && i < 2
      modifies sectors
      ensures ok == f.erases && sectors[..] == AfterErase(old(sectors[..]), i, f)
    {
      ok := *;
      var erased: bool := *;
      f := SectorFlash(ok, erased, false);
      if ok || erased {
        sectors[i] := ERASED;
      }
    }

    method WriteSector(i: nat, entry: Entry) returns (ok: bool)
      requires ValidPartition() && i < 2
      modifies sectors
      ensures sectors[..] == if ok then old(sectors[..])[i := entry] else old(sectors[..])
    {
      ok := *;
      if ok {
        sectors[i] := entry;
      }
    }

    /** `copy` is the caller's copy of the record, with the state of the new entry already set. */
    method RewriteOtaSeq(crc: Crc, copy: array<Entry>, otaSeq: uint32, index: nat)
      returns (r: Error, ghost flash: Flash)
      requires ValidPartition() && copy.Length == 2 && copy != sectors
      modifies sectors, copy
      ensures index >= 2 ==> r == InvalidArg && sectors[..] == old(sectors[..])
      ensures index < 2 ==>
                var entry := Entry(otaSeq, old(copy[index]).state, crc(otaSeq));
                (r, sectors[..]) == Rewrite(old(sectors[..]), index, entry, flash[index])
    {
      flash := [SectorFlash(false, false, false), SectorFlash(false, false, false)];
      if index > 1 {
        return InvalidArg, flash;
      }
      copy[index] := copy[index].(otaSeq := otaSeq);
      copy[index] := copy[index].(crc := crc(copy[index].otaSeq));
      var ok, f := EraseSector(index);
      flash := flash[index := f];
      if !ok {
        return FlashError, flash;
      }
      assert sectors[..] == old(sectors[..])[index := ERASED];
      ok := WriteSector(index, copy[index]);
      assert ok ==> sectors[..] == old(sectors[..])[index := copy[index]];
      flash := flash[index := f.(writes := ok)];
      r := if ok then Ok else FlashError;
    }

    method ReadOtaData() returns (copy: array<Entry>)
      requires ValidPartition()
      ensures fresh(copy) && copy[..] == sectors[..]
    {
      copy := new Entry[2];
      copy[0] := sectors[0];
      copy[1] := sectors[1];
    }

    method ChoosePreserved(crc: Crc, copy: array<Entry>, running: Option<nat>) returns (active: Option<nat>)
      requires copy.Length == 2
      ensures active == Preserved(crc, copy[..], running, appCount)
    {
      active := Active(crc, copy[..]);
      if active.Some? && running.Some? && SlotFromSeq(copy[active.value].otaSeq, appCount) != running {
        var runningIndex := FindForSlot(crc, copy[..], running, appCount);
        if runningIndex.Some? {
          active := runningIndex;
        }
      }
    }

    /** Points the record at an OTA slot. It can only end with the switched record, the old one, or the old one with
        the entry to be replaced erased. */
    method RewriteOtaData(crc: Crc, slot: nat, running: Option<nat>) returns (r: Error, ghost flash: Flash)
      requires ValidPartition()
      modifies sectors
      ensures (r, sectors[..]) == RewriteFor(crc, old(sectors[..]), present, slot, running, appCount, flash)
      ensures present && slot < appCount ==>
                && (r == Ok || r == FlashError)
                && (r == Ok ==> sectors[..] == Switched(crc, old(sectors[..]), running, slot, appCount))
                && (r == FlashError ==>
                      || sectors[..] == old(sectors[..])
                      || sectors[..] == Interrupted(crc, old(sectors[..]), running, slot, appCount))
    {
      flash := [SectorFlash(false, false, false), SectorFlash(false, false, false)];
      if !present {
        return NoSuchEntry, flash;
      }
      if slot >= appCount {
        return InvalidArg, flash;
      }
      var copy := ReadOtaData();
      var active := ChoosePreserved(crc, copy, running);
      if active.Some? {
        var n := NextSeq(copy[active.value].otaSeq, slot, appCount);
        var next := 1 - active.value;
        copy[next] := copy[next].(state := New);
        r, flash := RewriteOtaSeq(crc, copy, n, next);
      } else {
        copy[0] := copy[0].(state := New);
        r, flash := RewriteOtaSeq(crc, copy, slot + 1, 0);
      }
    }

    /** Erases the record for the factory image; stops at the first sector that cannot be erased. */
    method EraseOtaData() returns (r: Error, ghost flash: Flash)
      requires ValidPartition()
      modifies sectors
      ensures (r, sectors[..]) == EraseRecord(old(sectors[..]), flash)
      ensures r == Ok ==> sectors[..] == [ERASED, ERASED]
    {
      var ok, f := EraseSector(0);
      flash := [f, f];
      if !ok {
        return FlashError, flash;
      }
      ok, f := EraseSector(1);
      flash := flash[1 := f];
      r := if ok then Ok else FlashError;
    }

    /** Whatever is asked for and whatever fails, answer and record are those specified; refused kinds and images leave
        the record alone. */
    method SetBootPartition(crc: Crc, kind: Kind, imageVerifies: bool, running: Option<nat>)
      returns (r: Error, ghost flash: Flash)
      requires ValidPartition()
      modifies sectors
      ensures (r, sectors[..]) == SetBoot(crc, old(sectors[..]), present, kind, imageVerifies, running, appCount, flash)
      ensures kind.DataPartition? || kind.OtherApp? ==> r == InvalidArg && sectors[..] == old(sectors[..])
      ensures r == ValidateFailed || r == NoSuchEntry ==> sectors[..] == old(sectors[..])
      ensures r == Ok && kind.Factory? ==> sectors[..] == [ERASED, ERASED]
    {
      flash := [SectorFlash(false, false, false), SectorFlash(false, false, false)];
      if kind.DataPartition? || kind.OtherApp? {
        return InvalidArg, flash;
      }
      if !imageVerifies {
        return ValidateFailed, flash;
      }
      if kind.Factory? {
        if !present {
          return NoSuchEntry, flash;
        }
        r, flash := EraseOtaData();
        return;
      }
      r, flash := RewriteOtaData(crc, kind.slot, running);
    }

    /** The state of a slot's image, from the first matching entry with a good checksum. */
    method GetStatePartition(crc: Crc, kind: Kind) returns (r: Error, state: ImgState)
      requires ValidPartition()
      ensures !kind.Ota? ==> r == NotSupported
      ensures kind.Ota? && (appCount == 0 || !present) ==> r == NoSuchEntry
      ensures kind.Ota? && appCount > 0 && present ==>
                match GetState(crc, sectors[..], kind.slot, appCount)
                case Found(s) => r == Ok && state == s
                case InvalidCrc => r == CrcError
                case NotFound => r == NoSuchEntry
    {
      state := Undefined;
      if !kind.Ota? {
        return NotSupported, state;
      }
      if appCount == 0 || !present {
        return NoSuchEntry, state;
      }
      var slotFound := false;
      for i := 0 to 2
        invariant slotFound <==>
                    exists j :: 0 <= j < i && SlotFromSeq(sectors[j].otaSeq, appCount) == Some(kind.slot)
        invariant forall j :: 0 <= j < i && SlotFromSeq(sectors[j].otaSeq, appCount) == Some(kind.slot) ==>
                                sectors[j].crc != crc(sectors[j].otaSeq)
      {
        if SlotFromSeq(sectors[i].otaSeq, appCount) == Some(kind.slot) {
          state := sectors[i].state;
          slotFound := true;
          if sectors[i].crc != crc(sectors[i].otaSeq) {
            continue;
          }
          return Ok, state;
        }
      }
      r := if slotFound then CrcError else NoSuchEntry;
    }
  }
}

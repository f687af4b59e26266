/** Traces of flash operations: where erasing and writing a partition leads, and which operations it takes. */
module FwUpdateTrace {
  import opened Lists
  import opened OtaStream
  import opened OtaWriterModel
  import opened FwUpdateModel

  predicate Inside(a: Region, b: Region) {
    b.addr <= a.addr && a.addr + a.size <= b.addr + b.size
  }

  predicate Apart(a: Region, b: Region) {
    a.addr + a.size <= b.addr || b.addr + b.size <= a.addr
  }

  /** `t'` continues `t` with operations inside `part` only. */
  ghost predicate Continues(t: Trace, t': Trace, part: Region) {
    t <= t' && forall i :: |t| <= i < |t'| ==> Inside(At(t'[i]), part)
  }

  ghost predicate OkFrom(t: Trace, from: nat) {
    forall i :: from <= i < |t| ==> t[i].ok
  }

  lemma OkFromSplits(t: Trace, t1: Trace, t2: Trace)
    requires t <= t1 <= t2
    ensures OkFrom(t2, |t|) <==> OkFrom(t1, |t|) && OkFrom(t2, |t1|)
  {
    assert forall i :: 0 <= i < |t1| ==> t2[i] == t1[i];
  }

  // ---------- erasing ----------

  /** The successful erasing of a whole partition from `offset` on, every sector once and in order. */
  function SectorErases(part: Region, offset: nat): seq<Op>
    decreases if offset < part.size then part.size - offset else 0
  {
    if offset >= part.size then [] else [Erase(Sector(part, offset), true)] + SectorErases(part, offset + SECTOR)
  }

  lemma {:induction false} EraseContinues(env: Env, t: Trace, part: Region, offset: nat, onlyFirst: bool)
    requires part.size % SECTOR == 0 && offset % SECTOR == 0
    ensures Continues(t, EraseFrom(env, t, part, offset, onlyFirst).0, part)
    decreases part.size - offset
  {
    if offset < part.size {
      var t' := t + [Erase(Sector(part, offset), |t| !in env.failing)];
      EraseContinues(env, t', part, offset + SECTOR, onlyFirst);
    }
  }

  lemma ErasePartitionContinues(env: Env, t: Trace, part: Region, onlyFirst: bool)
    ensures Continues(t, ErasePartition(env, t, part, onlyFirst).0, part)
  {
    if part.size % SECTOR == 0 {
      EraseContinues(env, t, part, 0, onlyFirst);
    }
  }

  lemma {:induction false} EraseOkIff(env: Env, t: Trace, part: Region, offset: nat)
    ensures var (t', ok) := EraseFrom(env, t, part, offset, false);
            && t <= t'
            && (ok <==> OkFrom(t', |t|))
            && (ok ==> t' == t + SectorErases(part, offset))
    decreases if offset < part.size then part.size - offset else 0
  {
    if offset < part.size {
      var op := Erase(Sector(part, offset), |t| !in env.failing);
      assert (t + [op])[|t|] == op;
      if op.ok {
        EraseOkIff(env, t + [op], part, offset + SECTOR);
        var (t', ok) := EraseFrom(env, t, part, offset, false);
        assert t'[|t|] == op;
        assert t + ([op] + SectorErases(part, offset + SECTOR)) == (t + [op]) + SectorErases(part, offset + SECTOR);
      }
    }
  }

  // ---------- writing ----------

  predicate Fits(part: Region, writes: seq<BlockWrite>) {
    forall i :: 0 <= i < |writes| ==> writes[i].offset + |writes[i].data| <= part.size
  }

  /** The writes as successful operations on the partition. */
  function Placed(part: Region, writes: seq<BlockWrite>): seq<Op> {
    seq(|writes|, i requires 0 <= i < |writes| => Write(part.addr + writes[i].offset, writes[i].data, true))
  }

  lemma PlacedAppend(part: Region, a: seq<BlockWrite>, b: seq<BlockWrite>)
    ensures Placed(part, a + b) == Placed(part, a) + Placed(part, b)
  {
  }

  lemma {:induction false} WriteAllContinues(env: Env, t: Trace, part: Region, plan: seq<BlockWrite>)
    ensures Continues(t, WriteAll(env, t, part, plan).0, part)
    decreases |plan|
  {
    if plan != [] {
      WriteAllContinues(env, WriteBlock(env, t, part, plan[0]).0, part, plan[1..]);
    }
  }

  lemma {:induction false} WriteAllOkIff(env: Env, t: Trace, part: Region, plan: seq<BlockWrite>)
    ensures var (t', done) := WriteAll(env, t, part, plan);
            && t <= t'
            && (done == |plan| <==> OkFrom(t', |t|) && Fits(part, plan))
            && (done == |plan| ==> t' == t + Placed(part, plan))
    decreases |plan|
  {
    if plan != [] {
      var (t1, ok) := WriteBlock(env, t, part, plan[0]);
      if ok {
        WriteAllOkIff(env, t1, part, plan[1..]);
        var t' := WriteAll(env, t, part, plan).0;
        assert t'[|t|] == t1[|t|];
        assert forall i :: 0 < i < |plan| ==> plan[i] == plan[1..][i - 1];
        PlacedAppend(part, [plan[0]], plan[1..]);
        assert plan == [plan[0]] + plan[1..];
        assert t1 == t + Placed(part, [plan[0]]);
      } else if t1 != t {
        assert !t1[|t|].ok;
      }
    }
  }
}

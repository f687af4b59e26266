/** The advertisement table as the firmware keeps it: cells in a fixed array, a hash index over them, and lists of
    cell numbers. Every operation refines the model, which has no index and scans all cells. */
module AdvTable {
  import opened Lists
  import opened Numbers
  import opened AdvReport
  import opened AdvTableModel
  import opened AdvTableInvariant
  import opened AdvTableQueries

  const HASH_SIZE: nat := 101

  function HashIdx(mac: Mac): (h: nat)
    ensures h < HASH_SIZE
  {
    (CalcHash(mac) as nat) % HASH_SIZE
  }

  /** Every used cell stands once in the bucket of its own MAC, and no cell stands anywhere else. */
  ghost predicate BucketsAgree(cells: seq<Cell>, buckets: seq<seq<nat>>) {
    && |buckets| == HASH_SIZE
    && (forall h :: 0 <= h < HASH_SIZE ==> Distinct(buckets[h]) && Below(buckets[h], |cells|))
    && (forall h, c :: 0 <= h < HASH_SIZE && 0 <= c < |cells| ==>
          (c in buckets[h] <==> cells[c].inHash && HashIdx(cells[c].report.mac) == h))
  }

  lemma BucketSearchIsScan(cells: seq<Cell>, buckets: seq<seq<nat>>, mac: Mac)
    requires BucketsAgree(cells, buckets) && UniqueMacs(cells)
    ensures forall i :: 0 <= i < |buckets[HashIdx(mac)]| && cells[buckets[HashIdx(mac)][i]].report.mac == mac ==>
              Scan(cells, mac) == Some(buckets[HashIdx(mac)][i])
    ensures (forall i :: 0 <= i < |buckets[HashIdx(mac)]| ==> cells[buckets[HashIdx(mac)][i]].report.mac != mac) ==>
              Scan(cells, mac) == None
  {
    var bucket := buckets[HashIdx(mac)];
    forall i | 0 <= i < |bucket| ensures bucket[i] in bucket && cells[bucket[i]].inHash {}
    if Scan(cells, mac).Some? {
      assert Scan(cells, mac).value in bucket;
    }
  }

  lemma SameHashKeepsBuckets(cells: seq<Cell>, cells': seq<Cell>, buckets: seq<seq<nat>>)
    requires BucketsAgree(cells, buckets) && |cells'| == |cells|
    requires forall c :: 0 <= c < |cells| ==>
               cells'[c].inHash == cells[c].inHash && cells'[c].report.mac == cells[c].report.mac
    ensures BucketsAgree(cells', buckets)
  {
  }

  lemma RemoveKeepsBuckets(cells: seq<Cell>, buckets: seq<seq<nat>>, c: nat)
    requires BucketsAgree(cells, buckets) && c < |cells| && cells[c].inHash
    ensures var h := HashIdx(cells[c].report.mac);
            BucketsAgree(cells[c := cells[c].(inHash := false)], buckets[h := Without(buckets[h], c)])
  {
    var h := HashIdx(cells[c].report.mac);
    WithoutDistinct(buckets[h], c);
    forall d ensures d in Without(buckets[h], c) <==> d in buckets[h] && d != c { WithoutElements(buckets[h], c, d); }
    forall i | 0 <= i < |Without(buckets[h], c)| ensures Without(buckets[h], c)[i] < |cells| {
      WithoutAt(buckets[h], c, i);
    }
  }

  lemma AddKeepsBuckets(cells: seq<Cell>, buckets: seq<seq<nat>>, c: nat)
    requires BucketsAgree(cells, buckets) && c < |cells| && !cells[c].inHash
    ensures var h := HashIdx(cells[c].report.mac);
            BucketsAgree(cells[c := cells[c].(inHash := true)], buckets[h := buckets[h] + [c]])
  {
    var h := HashIdx(cells[c].report.mac);
    DistinctAppend(buckets[h], c);
  }

  lemma PutCellsAre(t: Table, adv: Report, cells: seq<Cell>)
    requires Indexed(t)
    requires Target(t, adv) < MAX_ADVS_TABLE
    requires cells == t.cells[Target(t, adv) := Cell(
               (if Accepts(t, adv) then adv else t.cells[Target(t, adv)].report)
                 .(samplesCounter := StoredCounter(t, adv)),
               if Accepts(t, adv) then true else t.cells[Target(t, adv)].inHash,
               if Accepts(t, adv) then [true, true, true] else t.cells[Target(t, adv)].inQueue)]
    ensures cells == PutCells(t, adv)
  {
  }

  lemma PutQueuesAre(t: Table, adv: Report, queues: seq<seq<nat>>)
    requires Inv(t) && Target(t, adv) < MAX_ADVS_TABLE && |queues| == NUM_QUEUES
    requires forall k: QueueNo ::
               queues[k] == if !Accepts(t, adv) || t.cells[Target(t, adv)].inQueue[k] then t.queues[k]
                            else t.queues[k] + [Target(t, adv)]
    ensures queues == AdvTableModel.Put(t, adv).queues
  {
    forall k: QueueNo ensures queues[k] == AdvTableModel.Put(t, adv).queues[k] {
      assert QueueOk(t, k);
    }
  }

  /** The state of the cells and queues after the first `n` cells of queue `k` were taken off it. */
  ghost predicate Drained(t: Table, k: QueueNo, n: nat, cells: seq<Cell>, queues: seq<seq<nat>>)
    requires Shape(t)
  {
    && n <= |t.queues[k]|
    && queues == t.queues[k := t.queues[k][n..]]
    && cells == Unqueue(t.cells, k, t.queues[k][..n])
  }

  lemma DrainNone(t: Table, k: QueueNo)
    requires Shape(t)
    ensures Drained(t, k, 0, t.cells, t.queues)
  {
  }

  lemma DrainOne(t: Table, k: QueueNo, n: nat, cells: seq<Cell>, queues: seq<seq<nat>>)
    requires Shape(t) && Distinct(t.queues[k])
    requires Drained(t, k, n, cells, queues) && n < |t.queues[k]|
    ensures var c := t.queues[k][n];
            && c < MAX_ADVS_TABLE && queues[k] != [] && queues[k][0] == c
            && |cells[c].inQueue| == NUM_QUEUES && cells[c].report == t.cells[c].report
            && Drained(t, k, n + 1, cells[c := cells[c].(inQueue := cells[c].inQueue[k := false])],
                       queues[k := queues[k][1..]])
  {
    var c := t.queues[k][n];
    assert t.queues[k][..n + 1] == t.queues[k][..n] + [c];
    assert queues[k][1..] == t.queues[k][n + 1..];
    assert c !in t.queues[k][..n];
  }

  lemma DrainedAll(t: Table, k: QueueNo, cells: seq<Cell>, queues: seq<seq<nat>>)
    requires Shape(t) && Drained(t, k, |t.queues[k]|, cells, queues)
    ensures cells == ReadQueue(t, k).cells && queues == ReadQueue(t, k).queues
  {
    assert t.queues[k][..|t.queues[k]|] == t.queues[k] && t.queues[k][|t.queues[k]|..] == [];
  }

  lemma {:induction false} StopAtIs(rs: seq<Report>, wanted: Report -> bool, n: nat)
    requires n <= |rs| && forall i :: 0 <= i < n ==> wanted(rs[i])
    ensures StopAt(rs, wanted) >= n
    ensures n == |rs| || !wanted(rs[n]) ==> StopAt(rs, wanted) == n
  {
    var m := StopAt(rs, wanted);
    assert m < |rs| ==> !wanted(rs[m]);
  }

  /** The state of a statistics read after it returned the first `n` reports. */
  ghost predicate Counted(t: Table, n: nat, reports: seq<Report>, cells: seq<Cell>)
    requires Shape(t)
  {
    && n <= MAX_ADVS_TABLE
    && reports == InOrder(t)[..n]
    && (forall j :: 0 <= j < n ==> HasTimestamp(InOrder(t)[j]))
    && cells == ResetCounters(t.cells, t.hist[..n])
  }

  lemma CountOne(t: Table, n: nat, reports: seq<Report>, cells: seq<Cell>)
    requires Shape(t) && Distinct(t.hist) && n < MAX_ADVS_TABLE && Counted(t, n, reports, cells)
    ensures var c := t.hist[n];
            && c < MAX_ADVS_TABLE && cells[c] == t.cells[c] && cells[c].report == InOrder(t)[n]
            && (HasTimestamp(cells[c].report) ==>
                  Counted(t, n + 1, reports + [cells[c].report],
                          cells[c := cells[c].(report := cells[c].report.(samplesCounter := 0))]))
  {
    var c := t.hist[n];
    assert t.hist[..n + 1] == t.hist[..n] + [c];
    assert c !in t.hist[..n];
    assert InOrder(t)[..n + 1] == InOrder(t)[..n] + [InOrder(t)[n]];
  }

  lemma CountedEnd(t: Table, n: nat)
    requires Shape(t) && n <= MAX_ADVS_TABLE
    requires forall j :: 0 <= j < n ==> HasTimestamp(InOrder(t)[j])
    requires n == MAX_ADVS_TABLE || !HasTimestamp(InOrder(t)[n])
    ensures NumStatistics(t) == n
  {
    StopAtIs(InOrder(t), HasTimestamp, n);
  }

  lemma DrainedFlags(t: Table, c: nat)
    requires Inv(t) && t.queues == [[], [], []] && c < MAX_ADVS_TABLE
    ensures t.cells[c].inQueue == [false, false, false]
  {
    assert QueueOk(t, HTTP_RUUVI) && QueueOk(t, HTTP_CUSTOM) && QueueOk(t, MQTT);
  }

  /** Emptying the three queues one after the other clears every queue flag and nothing else. */
  lemma DrainThree(t: Table)
    requires Inv(t)
    ensures var t1 := ReadQueue(t, HTTP_RUUVI); var t2 := ReadQueue(t1, HTTP_CUSTOM); var t3 := ReadQueue(t2, MQTT);
            && Inv(t1) && Inv(t2) && Inv(t3)
            && t3.hist == t.hist && t3.queues == [[], [], []]
            && (forall c :: 0 <= c < MAX_ADVS_TABLE ==>
                  t3.cells[c] == t.cells[c].(inQueue := [false, false, false]))
  {
    var t1 := ReadQueue(t, HTTP_RUUVI);
    var t2 := ReadQueue(t1, HTTP_CUSTOM);
    var t3 := ReadQueue(t2, MQTT);
    ReadQueueKeepsInv(t, HTTP_RUUVI);
    ReadQueueKeepsInv(t1, HTTP_CUSTOM);
    ReadQueueKeepsInv(t2, MQTT);
    forall c | 0 <= c < MAX_ADVS_TABLE ensures t3.cells[c] == t.cells[c].(inQueue := [false, false, false]) {
      DrainedFlags(t3, c);
    }
  }

  ghost function FreeCells(cells: seq<Cell>, which: seq<nat>): (r: seq<Cell>)
    ensures |r| == |cells|
    ensures forall c :: 0 <= c < |cells| ==>
              r[c] == if c in which then cells[c].(report := FreeReport(cells[c].report)) else cells[c]
  {
    seq(|cells|, c requires 0 <= c < |cells| =>
      if c in which then cells[c].(report := FreeReport(cells[c].report)) else cells[c])
  }

  lemma FreeOne(cells: seq<Cell>, hist: seq<nat>, i: nat)
    requires i < |hist| && Distinct(hist) && Below(hist, |cells|)
    ensures var before, c := FreeCells(cells, hist[..i]), hist[i];
            FreeCells(cells, hist[..i + 1]) == before[c := before[c].(report := FreeReport(before[c].report))]
  {
    assert hist[..i + 1] == hist[..i] + [hist[i]];
    assert hist[i] !in hist[..i];
  }

  lemma FreeAll(t: Table, drained: seq<Cell>, cells: seq<Cell>)
    requires Inv(t) && |drained| == |t.cells|
    requires forall c :: 0 <= c < |drained| ==> drained[c] == t.cells[c].(inQueue := [false, false, false])
    requires cells == FreeCells(drained, t.hist)
    ensures cells == AdvTableModel.Clear(t).cells
  {
  }

  class AdvTable {
    const cells: array<Cell>
    const buckets: array<seq<nat>>
    const queues: array<seq<nat>>
    var hist: seq<nat>

    ghost predicate Layout()
      reads this
    {
      && cells.Length == MAX_ADVS_TABLE && buckets.Length == HASH_SIZE && queues.Length == NUM_QUEUES
      && buckets != queues
    }

    ghost function Model(): Table
      reads this, cells, queues
    {
      Table(cells[..], hist, queues[..])
    }

    ghost predicate Valid()
      reads this, cells, buckets, queues
    {
      Layout() && Inv(Model()) && BucketsAgree(cells[..], buckets[..])
    }

    constructor ()
      ensures Valid() && fresh(cells) && fresh(buckets) && fresh(queues)
      ensures Model() == InitTable()
    {
      cells := new Cell[MAX_ADVS_TABLE](_ => FREE_CELL);
      buckets := new seq<nat>[HASH_SIZE](_ => []);
      queues := new seq<nat>[NUM_QUEUES](_ => []);
      hist := [];
      new;
      for i := 0 to MAX_ADVS_TABLE
        invariant hist == seq(i, j => j)
        invariant forall c :: 0 <= c < MAX_ADVS_TABLE ==> cells[c] == FREE_CELL
        invariant forall h :: 0 <= h < HASH_SIZE ==> buckets[h] == []
        invariant forall k :: 0 <= k < NUM_QUEUES ==> queues[k] == []
      {
        cells[i] := FREE_CELL;
        hist := hist + [i];
      }
      InitHasInv();
      assert queues[..] == [[], [], []];
      assert Model() == InitTable();
    }

    // ---------- the hash index ----------

    method HashTableSearch(mac: Mac) returns (found: Option<nat>)
      requires Valid()
      ensures found == Scan(cells[..], mac)
    {
      BucketSearchIsScan(cells[..], buckets[..], mac);
      var bucket := buckets[HashIdx(mac)];
      for i := 0 to |bucket|
        invariant forall j :: 0 <= j < i ==> cells[bucket[j]].report.mac != mac
      {
        if cells[bucket[i]].report.mac == mac {
          return Some(bucket[i]);
        }
      }
      return None;
    }

    method HashTableAdd(c: nat)
      requires Layout() && BucketsAgree(cells[..], buckets[..])
      requires c < MAX_ADVS_TABLE && !cells[c].inHash
      modifies cells, buckets
      ensures BucketsAgree(cells[..], buckets[..])
      ensures cells[..] == old(cells[..])[c := old(cells[c]).(inHash := true)]
    {
      AddKeepsBuckets(cells[..], buckets[..], c);
      var h := HashIdx(cells[c].report.mac);
      buckets[h] := buckets[h] + [c];
      cells[c] := cells[c].(inHash := true);
    }

    method HashTableRemove(c: nat)
      requires Layout() && BucketsAgree(cells[..], buckets[..])
      requires c < MAX_ADVS_TABLE
      modifies cells, buckets
      ensures BucketsAgree(cells[..], buckets[..])
      ensures cells[..] == old(cells[..])[c := old(cells[c]).(inHash := false)]
    {
      if !cells[c].inHash {
        return;
      }
      RemoveKeepsBuckets(cells[..], buckets[..], c);
      var h := HashIdx(cells[c].report.mac);
      buckets[h] := Without(buckets[h], c);
      cells[c] := cells[c].(inHash := false);
    }

    // ---------- put ----------

    /** Appends a cell to a retransmission queue unless its flag says that it is already there. */
    method Enlist(k: QueueNo, c: nat)
      requires Layout() && c < MAX_ADVS_TABLE && |cells[c].inQueue| == NUM_QUEUES
      modifies cells, queues
      ensures cells[..] == old(cells[..])[c := old(cells[c]).(inQueue := old(cells[c]).inQueue[k := true])]
      ensures queues[..]
           == old(queues[..])[k := if old(cells[c]).inQueue[k] then old(queues[k]) else old(queues[k]) + [c]]
    {
      ghost var flags := cells[c].inQueue;
      assert flags[k] ==> flags[k := true] == flags;
      if !cells[c].inQueue[k] {
        queues[k] := queues[k] + [c];
        cells[c] := cells[c].(inQueue := cells[c].inQueue[k := true]);
      }
    }

    /** What follows every accepted report: its cell is listed in all three queues and moves to the front. */
    method Touch(c: nat)
      requires Layout() && c < MAX_ADVS_TABLE && |cells[c].inQueue| == NUM_QUEUES
      modifies this, cells, queues
      ensures cells[..] == old(cells[..])[c := old(cells[c]).(inQueue := [true, true, true])]
      ensures forall k: QueueNo ::
                queues[k] == if old(cells[c]).inQueue[k] then old(queues[k]) else old(queues[k]) + [c]
      ensures hist == MoveToFront(old(hist), c)
    {
      ghost var flags := cells[c].inQueue;
      assert flags[HTTP_RUUVI := true][HTTP_CUSTOM := true][MQTT := true] == [true, true, true];
      Enlist(HTTP_RUUVI, c);
      Enlist(HTTP_CUSTOM, c);
      Enlist(MQTT, c);
      hist := Without(hist, c);
      hist := [c] + hist;
    }

    /** Stores a report under a new MAC in the least recently accepted cell. */
    method Replace(adv: Report) returns (c: nat)
      requires Valid() && Scan(cells[..], adv.mac).None?
      modifies cells, buckets
      ensures c == Target(old(Model()), adv) && c < MAX_ADVS_TABLE
      ensures cells[..] == old(cells[..])[c := Cell(adv, true, old(cells[c]).inQueue)]
      ensures BucketsAgree(cells[..], buckets[..])
    {
      c := Last(hist);
      HashTableRemove(c);
      cells[c] := cells[c].(report := adv);
      assert cells[..] == old(cells[..])[c := Cell(adv, false, old(cells[c]).inQueue)];
      HashTableAdd(c);
    }

    /** Counts a report for a known MAC and takes over its contents unless it must be discarded. */
    method Update(c: nat, adv: Report) returns (updated: bool)
      requires Valid() && Scan(cells[..], adv.mac) == Some(c)
      modifies cells
      ensures updated == Accepts(old(Model()), adv)
      ensures cells[..] == old(cells[..])[c := old(cells[c]).(report :=
                (if updated then adv else old(cells[c]).report).(samplesCounter := StoredCounter(old(Model()), adv)))]
      ensures BucketsAgree(cells[..], buckets[..])
    {
      var prev := cells[c].report;
      var counter := (prev.samplesCounter + 1) % UINT32_MOD;
      updated := !MustBeDiscarded(adv, prev);
      if updated {
        cells[c] := cells[c].(report := adv.(samplesCounter := counter));
      } else {
        cells[c] := cells[c].(report := prev.(samplesCounter := counter));
      }
    }

    method Store(adv: Report) returns (c: nat, updated: bool)
      requires Valid()
      modifies cells, buckets
      ensures c == Target(old(Model()), adv) && c < MAX_ADVS_TABLE
      ensures updated == Accepts(old(Model()), adv)
      ensures cells[..] == old(cells[..])[c := Cell(
                (if updated then adv else old(cells[c]).report).(samplesCounter := StoredCounter(old(Model()), adv)),
                if updated then true else old(cells[c]).inHash,
                old(cells[c]).inQueue)]
      ensures BucketsAgree(cells[..], buckets[..])
    {
      TargetFacts(Model(), adv);
      var found := HashTableSearch(adv.mac);
      if found.None? {
        c := Replace(adv);
        updated := true;
      } else {
        c := found.value;
        updated := Update(c, adv);
      }
    }

    method Put(adv: Report) returns (updated: bool)
      requires Valid()
      modifies this, cells, buckets, queues
      ensures Valid()
      ensures Model() == AdvTableModel.Put(old(Model()), adv)
      ensures updated == Accepts(old(Model()), adv)
    {
      ghost var t := Model();
      var c: nat;
      c, updated := Store(adv);
      ghost var stored := cells[..];
      if updated {
        Touch(c);
      }
      SameHashKeepsBuckets(stored, cells[..], buckets[..]);
      PutCellsAre(t, adv, cells[..]);
      PutQueuesAre(t, adv, queues[..]);
      assert Model() == AdvTableModel.Put(t, adv);
      PutKeepsInv(t, adv);
    }

    // ---------- retransmission queues ----------

    /** Takes the first cell off a queue and clears its flag. */
    method Dequeue(k: QueueNo) returns (c: nat)
      requires Layout() && queues[k] != [] && queues[k][0] < MAX_ADVS_TABLE
      requires |cells[queues[k][0]].inQueue| == NUM_QUEUES
      modifies cells, queues
      ensures c == old(queues[k])[0]
      ensures queues[..] == old(queues[..])[k := old(queues[k])[1..]]
      ensures cells[..] == old(cells[..])[c := old(cells[c]).(inQueue := old(cells[c]).inQueue[k := false])]
    {
      c := queues[k][0];
      queues[k] := queues[k][1..];
      cells[c] := cells[c].(inQueue := cells[c].inQueue[k := false]);
    }

    method ReadRetransmissionListUnsafe(k: QueueNo) returns (reports: seq<Report>, dropped: bool)
      requires Layout() && Shape(Model()) && Distinct(queues[k]) && |queues[k]| <= MAX_ADVS_TABLE
      modifies cells, queues
      ensures Model() == ReadQueue(old(Model()), k)
      ensures reports == Reports(old(Model()).cells, old(Model()).queues[k])
      ensures !dropped
    {
      ghost var t := Model();
      DrainNone(t, k);
      reports, dropped := [], false;
      while true
        invariant Layout() && !dropped && |queues[k]| == |t.queues[k]| - |reports|
        invariant Drained(t, k, |reports|, cells[..], queues[..])
        invariant forall i :: 0 <= i < |reports| ==> reports[i] == t.cells[t.queues[k][i]].report
        decreases |queues[k]|
      {
        if queues[k] == [] {
          break;
        }
        DrainOne(t, k, |reports|, cells[..], queues[..]);
        var c := Dequeue(k);
        if |reports| >= MAX_ADVS_TABLE {
          dropped := true;
          break;
        }
        reports := reports + [cells[c].report];
      }
      DrainedAll(t, k, cells[..], queues[..]);
    }

    /** Reads and empties a queue. A full output table would make it drop a cell; `dropped` says that it never does. */
    method ReadRetransmissionList(k: QueueNo) returns (reports: seq<Report>, dropped: bool)
      requires Valid()
      modifies cells, queues
      ensures Valid()
      ensures Model() == ReadQueue(old(Model()), k)
      ensures reports == Reports(old(Model()).cells, old(Model()).queues[k])
      ensures !dropped
    {
      ghost var t := Model();
      assert QueueOk(t, k);
      QueueFits(t, k);
      reports, dropped := ReadRetransmissionListUnsafe(k);
      ReadQueueKeepsInv(t, k);
      SameHashKeepsBuckets(t.cells, cells[..], buckets[..]);
    }

    method ReadMqttHead() returns (report: Option<Report>)
      requires Valid()
      modifies cells, queues
      ensures Valid()
      ensures Model() == AdvTableModel.PopMqtt(old(Model()))
      ensures report == if old(Model()).queues[MQTT] == [] then None
                        else Some(old(Model()).cells[old(Model()).queues[MQTT][0]].report)
    {
      ghost var t := Model();
      assert QueueOk(t, MQTT);
      PopMqttKeepsInv(t);
      if queues[MQTT] == [] {
        return None;
      }
      var c := Dequeue(MQTT);
      report := Some(cells[c].report);
      assert cells[..] == Unqueue(t.cells, MQTT, [t.queues[MQTT][0]]);
    }

    method IsMqttListEmpty() returns (isEmpty: bool)
      requires Valid()
      ensures isEmpty <==> Model().queues[MQTT] == []
    {
      isEmpty := queues[MQTT] == [];
    }

    // ---------- history and statistics ----------

    method IsTooOld(q: Query, report: Report) returns (tooOld: bool)
      ensures tooOld <==> !Recent(q, report)
    {
      if q.useTimestamps {
        tooOld := q.useFilter && AsUint32(q.curTime - report.timestamp) > q.filter;
      } else {
        var deltaSec := AsInt32(report.timestamp - q.filter);
        tooOld := q.useFilter && deltaSec <= 0;
      }
    }

    method ReadHistory(q: Query) returns (reports: seq<Report>)
      requires Layout() && Shape(Model())
      ensures reports == History(Model(), q)
    {
      ghost var rs, wanted := InOrder(Model()), r => Wanted(q, r);
      reports := [];
      for i := 0 to |hist|
        invariant i == |reports| && reports == rs[..i]
        invariant forall j :: 0 <= j < i ==> wanted(rs[j])
      {
        StopAtIs(rs, wanted, i);
        var report := cells[hist[i]].report;
        if |reports| >= MAX_ADVS_TABLE {
          break;
        }
        if report.data == [] {
          break;
        }
        var tooOld := IsTooOld(q, report);
        if tooOld {
          break;
        }
        reports := reports + [report];
      }
      if |reports| == |hist| { StopAtIs(rs, wanted, |hist|); }
    }

    method ReadStatisticsUnsafe() returns (reports: seq<Report>)
      requires Layout() && Shape(Model()) && Distinct(hist)
      modifies cells
      ensures Counted(old(Model()), NumStatistics(old(Model())), reports, cells[..])
    {
      ghost var t := Model();
      reports := [];
      for i := 0 to |hist|
        invariant Layout() && hist == t.hist && i == |reports| && Counted(t, i, reports, cells[..])
      {
        CountOne(t, i, reports, cells[..]);
        var c := hist[i];
        if |reports| >= MAX_ADVS_TABLE {
          break;
        }
        if cells[c].report.timestamp == 0 {
          break;
        }
        reports := reports + [cells[c].report];
        cells[c] := cells[c].(report := cells[c].report.(samplesCounter := 0));
      }
      CountedEnd(t, |reports|);
    }

    /** Reads the reports with a timestamp, and resets the counter of each one it returns. */
    method ReadStatistics() returns (reports: seq<Report>)
      requires Valid()
      modifies cells
      ensures Valid()
      ensures reports == Statistics(old(Model()))
      ensures Model() == AdvTableModel.ReadStatistics(old(Model()))
    {
      ghost var t := Model();
      reports := ReadStatisticsUnsafe();
      ReadStatisticsKeepsInv(t);
      SameHashKeepsBuckets(t.cells, cells[..], buckets[..]);
    }

    // ---------- clear ----------

    method DrainList(k: QueueNo)
      requires Layout() && Shape(Model()) && Distinct(queues[k])
      modifies cells, queues
      ensures Model() == ReadQueue(old(Model()), k)
    {
      ghost var t := Model();
      ghost var n := 0;
      DrainNone(t, k);
      while queues[k] != []
        invariant Layout() && n + |queues[k]| == |t.queues[k]|
        invariant Drained(t, k, n, cells[..], queues[..])
        decreases |queues[k]|
      {
        DrainOne(t, k, n, cells[..], queues[..]);
        var _ := Dequeue(k);
        n := n + 1;
      }
      DrainedAll(t, k, cells[..], queues[..]);
    }

    method DrainAllLists()
      requires Layout() && Inv(Model())
      modifies cells, queues
      ensures Model().hist == old(Model()).hist && Model().queues == [[], [], []]
      ensures |cells[..]| == MAX_ADVS_TABLE && forall c :: 0 <= c < MAX_ADVS_TABLE ==>
                cells[c] == old(cells[c]).(inQueue := [false, false, false])
    {
      DrainThree(Model());
      assert QueueOk(Model(), HTTP_RUUVI);
      DrainList(HTTP_RUUVI);
      assert QueueOk(Model(), HTTP_CUSTOM);
      DrainList(HTTP_CUSTOM);
      assert QueueOk(Model(), MQTT);
      DrainList(MQTT);
    }

    method FreeAllCells()
      requires Layout() && Shape(Model()) && Distinct(hist)
      modifies cells
      ensures cells[..] == FreeCells(old(cells[..]), hist)
    {
      ghost var before := cells[..];
      assert cells[..] == FreeCells(before, hist[..0]);
      for i := 0 to |hist|
        invariant Layout() && cells[..] == FreeCells(before, hist[..i])
      {
        FreeOne(before, hist, i);
        cells[hist[i]] := cells[hist[i]].(report := FreeReport(cells[hist[i]].report));
      }
      assert hist[..|hist|] == hist;
    }

    method Clear()
      requires Valid()
      modifies cells, queues
      ensures Valid()
      ensures Model() == AdvTableModel.Clear(old(Model()))
    {
      ghost var t := Model();
      DrainAllLists();
      ghost var drained := cells[..];
      FreeAllCells();
      FreeAll(t, drained, cells[..]);
      ClearKeepsInv(t);
      SameHashKeepsBuckets(t.cells, cells[..], buckets[..]);
    }
  }
}

/** The advertisement table as a cache over whole runs: which MACs it holds, which report it holds for each of
    them, and how the sample counters count. */
module AdvTableCache {
  import opened Lists
  import opened Numbers
  import opened AdvReport
  import opened AdvTableModel
  import opened AdvTableInvariant

  function NextRecency(t: Table, e: Event, recency: seq<Mac>): seq<Mac> {
    if e.EvPut? && Accepts(t, e.adv) then MoveToFront(recency, e.adv.mac) else recency
  }

  /** The distinct MACs of all reports accepted so far, most recently accepted first. It is never cut. */
  ghost function Recency(es: seq<Event>): seq<Mac> {
    if es == [] then [] else NextRecency(Run(Before(es)), Last(es), Recency(Before(es)))
  }

  function NextLatest(t: Table, e: Event, mac: Mac, latest: Report): Report {
    match e
    case EvPut(adv) => if adv.mac == mac && Accepts(t, adv) then adv else latest
    case EvClear => FreeReport(latest)
    case _ => latest
  }

  /** A plain map from MAC to its last accepted report, with the contents emptied by a clear. */
  ghost function Latest(es: seq<Event>, mac: Mac): Report {
    if es == [] then BLANK_REPORT else NextLatest(Run(Before(es)), Last(es), mac, Latest(Before(es), mac))
  }

  // ---------- which MACs ----------

  /** The i-th cell of the history list is in use exactly when there is an i-th most recent MAC, and holds it. */
  ghost predicate LruAt(t: Table, recency: seq<Mac>, i: nat)
    requires Shape(t) && i < MAX_ADVS_TABLE
  {
    var cell := t.cells[t.hist[i]];
    (cell.inHash <==> i < |recency|) && (i < |recency| ==> cell.report.mac == recency[i])
  }

  ghost predicate LruAgrees(t: Table, recency: seq<Mac>)
    requires Shape(t)
  {
    forall i: nat :: i < MAX_ADVS_TABLE ==> LruAt(t, recency, i)
  }

  lemma IndexIsUnique<T>(s: seq<T>, k: nat)
    requires Distinct(s) && k < |s|
    ensures IndexOf(s, s[k]) == k
  {
  }

  /** Which entry of the cached part of `recency` moves to place i when `mac` moves to the front. */
  lemma RecencyShifts(recency: seq<Mac>, mac: Mac, i: nat)
    requires Distinct(recency) && 1 <= i < MAX_ADVS_TABLE
    requires mac !in Prefix(recency, MAX_ADVS_TABLE)
    ensures i < |MoveToFront(recency, mac)| <==> i - 1 < |recency|
    ensures i - 1 < |recency| ==> MoveToFront(recency, mac)[i] == recency[i - 1]
  {
    var cached := Prefix(recency, MAX_ADVS_TABLE);
    assert forall j :: 0 <= j < |cached| ==> cached[j] == recency[j];
    if mac in recency { MoveToFrontShifts(recency, mac, i); }
  }

  lemma KnownMacKeepsLruAt(t: Table, adv: Report, recency: seq<Mac>, i: nat)
    requires Indexed(t) && Distinct(t.hist) && Distinct(recency) && LruAgrees(t, recency)
    requires Accepts(t, adv) && Scan(t.cells, adv.mac).Some?
    requires Shape(Put(t, adv)) && i < MAX_ADVS_TABLE
    ensures LruAt(Put(t, adv), MoveToFront(recency, adv.mac), i)
  {
    TargetFacts(t, adv);
    PutCellsFacts(t, adv);
    var c := Target(t, adv);
    var k := IndexOf(t.hist, c);
    assert LruAt(t, recency, k);
    IndexIsUnique(recency, k);
    MoveToFrontAt(recency, adv.mac);
    if i > 0 {
      assert LruAt(t, recency, if i <= k then i - 1 else i);
      MoveToFrontShifts(t.hist, c, i);
      if i < |recency| { MoveToFrontShifts(recency, adv.mac, i); }
    }
  }

  lemma NewMacIsNotRecent(t: Table, mac: Mac, recency: seq<Mac>)
    requires Shape(t) && LruAgrees(t, recency)
    requires Scan(t.cells, mac).None?
    ensures mac !in Prefix(recency, MAX_ADVS_TABLE)
  {
    var cached := Prefix(recency, MAX_ADVS_TABLE);
    forall i | 0 <= i < |cached| ensures cached[i] != mac {
      assert LruAt(t, recency, i);
      assert !Holds(t.cells[t.hist[i]], mac);
    }
  }

  lemma NewMacKeepsLruAt(t: Table, adv: Report, recency: seq<Mac>, i: nat)
    requires Indexed(t) && Distinct(t.hist) && Distinct(recency) && LruAgrees(t, recency)
    requires Scan(t.cells, adv.mac).None?
    requires Shape(Put(t, adv)) && i < MAX_ADVS_TABLE
    ensures LruAt(Put(t, adv), MoveToFront(recency, adv.mac), i)
  {
    TargetFacts(t, adv);
    PutCellsFacts(t, adv);
    IndexIsUnique(t.hist, MAX_ADVS_TABLE - 1);
    NewMacIsNotRecent(t, adv.mac, recency);
    if i > 0 {
      assert LruAt(t, recency, i - 1);
      MoveToFrontShifts(t.hist, Target(t, adv), i);
      RecencyShifts(recency, adv.mac, i);
    }
  }

  lemma PutKeepsLruAt(t: Table, adv: Report, recency: seq<Mac>, i: nat)
    requires Indexed(t) && Distinct(t.hist) && Distinct(recency) && LruAgrees(t, recency)
    requires Shape(Put(t, adv)) && i < MAX_ADVS_TABLE
    ensures LruAt(Put(t, adv), NextRecency(t, EvPut(adv), recency), i)
  {
    if Accepts(t, adv) {
      if Scan(t.cells, adv.mac).Some? { KnownMacKeepsLruAt(t, adv, recency, i); }
      else { NewMacKeepsLruAt(t, adv, recency, i); }
    } else {
      PutCellsFacts(t, adv);
      assert LruAt(t, recency, i);
    }
  }

  lemma StepKeepsLruAt(t: Table, e: Event, recency: seq<Mac>, i: nat)
    requires Inv(t) && Distinct(recency) && LruAgrees(t, recency)
    requires i < MAX_ADVS_TABLE
    ensures LruAt(Step(t, e), NextRecency(t, e, recency), i)
  {
    if e.EvPut? {
      assert Step(t, e) == Put(t, e.adv);
      PutKeepsLruAt(t, e.adv, recency, i);
    } else {
      QuietStepFacts(t, e);
      assert LruAt(t, recency, i);
    }
  }

  lemma {:induction false} LruOverRuns(es: seq<Event>)
    ensures Distinct(Recency(es)) && LruAgrees(Run(es), Recency(es))
  {
    if es == [] {
    } else {
      LruOverRuns(Before(es));
      var t, e, recency := Run(Before(es)), Last(es), Recency(Before(es));
      if e.EvPut? { MoveToFrontDistinct(recency, e.adv.mac); }
      forall i: nat | i < MAX_ADVS_TABLE ensures LruAt(Run(es), Recency(es), i) {
        StepKeepsLruAt(t, e, recency, i);
      }
    }
  }

  /** The table is an LRU cache: it knows exactly the MAX_ADVS_TABLE most recently accepted MACs, and its history
      list is in order of their last acceptance. */
  lemma TableHoldsMostRecentMacs(es: seq<Event>, mac: Mac)
    ensures Scan(Run(es).cells, mac).Some? <==> mac in Prefix(Recency(es), MAX_ADVS_TABLE)
  {
    LruOverRuns(es);
    var t, cached := Run(es), Prefix(Recency(es), MAX_ADVS_TABLE);
    if Scan(t.cells, mac).Some? {
      var i := IndexOf(t.hist, Scan(t.cells, mac).value);
      assert LruAt(t, Recency(es), i);
      assert cached[i] == mac;
    }
    if mac in cached {
      var i := IndexOf(cached, mac);
      assert LruAt(t, Recency(es), i);
      assert Holds(t.cells[t.hist[i]], mac);
    }
  }

  // ---------- which report ----------

  ghost predicate LatestAgrees(t: Table, latest: Mac -> Report)
    requires Shape(t)
  {
    forall c :: 0 <= c < MAX_ADVS_TABLE && t.cells[c].inHash ==>
                  SameAdvertisement(t.cells[c].report, latest(t.cells[c].report.mac))
  }

  lemma PutKeepsLatestAt(t: Table, adv: Report, c: nat, latest: Mac -> Report)
    requires Indexed(t) && LatestAgrees(t, latest) && c < MAX_ADVS_TABLE
    requires PutCells(t, adv)[c].inHash
    ensures var r := PutCells(t, adv)[c].report; SameAdvertisement(r, NextLatest(t, EvPut(adv), r.mac, latest(r.mac)))
  {
    TargetFacts(t, adv);
    PutCellsFacts(t, adv);
    if c != Target(t, adv) {
      assert !Holds(t.cells[c], adv.mac) && t.cells[c].inHash;
    }
  }

  lemma QuietStepKeepsLatestAt(t: Table, e: Event, c: nat, latest: Mac -> Report)
    requires Inv(t) && LatestAgrees(t, latest) && c < MAX_ADVS_TABLE && !e.EvPut?
    requires Step(t, e).cells[c].inHash
    ensures var r := Step(t, e).cells[c].report; SameAdvertisement(r, NextLatest(t, e, r.mac, latest(r.mac)))
  {
    QuietStepFacts(t, e);
    assert t.cells[c].inHash;
  }

  lemma StepKeepsLatest(t: Table, e: Event, latest: Mac -> Report)
    requires Inv(t) && LatestAgrees(t, latest)
    ensures LatestAgrees(Step(t, e), mac => NextLatest(t, e, mac, latest(mac)))
  {
    forall c: nat | c < MAX_ADVS_TABLE && Step(t, e).cells[c].inHash
      ensures var r := Step(t, e).cells[c].report; SameAdvertisement(r, NextLatest(t, e, r.mac, latest(r.mac)))
    {
      if e.EvPut? {
        PutKeepsLatestAt(t, e.adv, c, latest);
      } else {
        QuietStepKeepsLatestAt(t, e, c, latest);
      }
    }
  }

  lemma {:induction false} LatestOverRuns(es: seq<Event>)
    ensures LatestAgrees(Run(es), mac => Latest(es, mac))
  {
    if es == [] {
    } else {
      LatestOverRuns(Before(es));
      StepKeepsLatest(Run(Before(es)), Last(es), mac => Latest(Before(es), mac));
    }
  }

  /** The cells, their history list and their buckets agree with a plain map from MAC to latest accepted report,
      cut to the MAX_ADVS_TABLE most recent MACs. */
  lemma LookupAgreesWithPlainMap(es: seq<Event>, mac: Mac)
    ensures var found := Scan(Run(es).cells, mac);
            if mac in Prefix(Recency(es), MAX_ADVS_TABLE)
            then found.Some? && SameAdvertisement(Run(es).cells[found.value].report, Latest(es, mac))
            else found.None?
  {
    TableHoldsMostRecentMacs(es, mac);
    LatestOverRuns(es);
  }

  // ---------- sample counters ----------

  predicate CountersStartAtZero(es: seq<Event>) {
    forall i :: 0 <= i < |es| && es[i].EvPut? ==> es[i].adv.samplesCounter == 0
  }

  predicate Reported(t: Table, mac: Mac)
    requires Shape(t)
  {
    exists i :: 0 <= i < NumStatistics(t) && Statistics(t)[i].mac == mac
  }

  function NextPutsSince(t: Table, e: Event, mac: Mac, count: nat): nat
    requires Shape(t)
  {
    match e
    case EvPut(adv) =>
      if adv.mac != mac then count
      else if Scan(t.cells, mac).Some? then count + 1
      else 0
    case EvStatistics => if Reported(t, mac) then 0 else count
    case EvClear => 0
    case _ => count
  }

  /** Reports put for `mac`, whether accepted or discarded, since it last entered the table, was cleared, or was
      returned by a statistics read. The report that brings a MAC into the table is not counted. */
  ghost function PutsSince(es: seq<Event>, mac: Mac): nat {
    if es == [] then 0 else NextPutsSince(Run(Before(es)), Last(es), mac, PutsSince(Before(es), mac))
  }

  ghost predicate CountersAgree(cells: seq<Cell>, count: Mac -> nat) {
    forall c :: 0 <= c < |cells| ==>
                  if cells[c].inHash then cells[c].report.samplesCounter == AsUint32(count(cells[c].report.mac))
                  else cells[c].report == BLANK_REPORT
  }

  /** A statistics read resets the counters of exactly the cells whose MACs it returns. */
  lemma ReportedMeansReset(t: Table, c: nat)
    requires Indexed(t) && c < MAX_ADVS_TABLE && t.cells[c].inHash
    requires forall d :: 0 <= d < MAX_ADVS_TABLE && !t.cells[d].inHash ==> t.cells[d].report == BLANK_REPORT
    ensures Reported(t, t.cells[c].report.mac) <==> c in t.hist[..NumStatistics(t)]
  {
    var n, mac := NumStatistics(t), t.cells[c].report.mac;
    if c in t.hist[..n] {
      var i := IndexOf(t.hist[..n], c);
      assert Statistics(t)[i].mac == mac;
    }
    if Reported(t, mac) {
      var i :| 0 <= i < n && Statistics(t)[i].mac == mac;
      assert HasTimestamp(InOrder(t)[i]);
      assert t.hist[..n][i] == t.hist[i] == c;
    }
  }

  lemma ResetCounterIs(t: Table, c: nat)
    requires Shape(t) && c < MAX_ADVS_TABLE
    ensures ReadStatistics(t).cells[c].inHash == t.cells[c].inHash
    ensures ReadStatistics(t).cells[c].report == if c in t.hist[..NumStatistics(t)]
              then t.cells[c].report.(samplesCounter := 0) else t.cells[c].report
  {
  }

  lemma AddOneMod(x: nat)
    ensures AsUint32(AsUint32(x) + 1) == AsUint32(x + 1)
  {
  }

  lemma PutKeepsCounters(t: Table, adv: Report, count: Mac -> nat)
    requires Indexed(t) && CountersAgree(t.cells, count)
    requires adv.samplesCounter == 0
    ensures CountersAgree(PutCells(t, adv), mac => NextPutsSince(t, EvPut(adv), mac, count(mac)))
  {
    TargetFacts(t, adv);
    PutCellsFacts(t, adv);
    AddOneMod(count(adv.mac));
    var cells, count' := PutCells(t, adv), mac => NextPutsSince(t, EvPut(adv), mac, count(mac));
    var target := Target(t, adv);
    assert cells[target].inHash ==> cells[target].report.samplesCounter == AsUint32(count'(adv.mac));
    forall c | 0 <= c < |cells| && c != target && cells[c].inHash
      ensures count'(cells[c].report.mac) == count(cells[c].report.mac)
    {
      assert !Holds(t.cells[c], adv.mac);
    }
  }

  lemma StatisticsKeepsCounterAt(t: Table, c: nat, count: nat)
    requires Shape(t) && c < MAX_ADVS_TABLE
    requires Reported(t, t.cells[c].report.mac) <==> c in t.hist[..NumStatistics(t)]
    requires t.cells[c].report.samplesCounter == AsUint32(count)
    ensures var cell := ReadStatistics(t).cells[c];
            cell.report.samplesCounter == AsUint32(NextPutsSince(t, EvStatistics, t.cells[c].report.mac, count))
  {
    ResetCounterIs(t, c);
  }

  lemma StatisticsKeepsCounters(t: Table, count: Mac -> nat)
    requires Indexed(t) && CountersAgree(t.cells, count)
    ensures CountersAgree(ReadStatistics(t).cells, mac => NextPutsSince(t, EvStatistics, mac, count(mac)))
  {
    forall c: nat | c < MAX_ADVS_TABLE && t.cells[c].inHash
      ensures var cell := ReadStatistics(t).cells[c];
              && cell.inHash && cell.report.mac == t.cells[c].report.mac
              && cell.report.samplesCounter
                 == AsUint32(NextPutsSince(t, EvStatistics, cell.report.mac, count(cell.report.mac)))
    {
      ReportedMeansReset(t, c);
      ResetCounterIs(t, c);
      StatisticsKeepsCounterAt(t, c, count(t.cells[c].report.mac));
    }
    forall c | 0 <= c < MAX_ADVS_TABLE && !t.cells[c].inHash
      ensures ReadStatistics(t).cells[c].report == BLANK_REPORT && !ReadStatistics(t).cells[c].inHash
    {
      ResetCounterIs(t, c);
    }
  }

  lemma StepKeepsCounters(t: Table, e: Event, count: Mac -> nat)
    requires Inv(t) && CountersAgree(t.cells, count)
    requires e.EvPut? ==> e.adv.samplesCounter == 0
    ensures CountersAgree(Step(t, e).cells, mac => NextPutsSince(t, e, mac, count(mac)))
  {
    match e
    case EvPut(adv) => PutKeepsCounters(t, adv, count);
    case EvStatistics => StatisticsKeepsCounters(t, count);
    case _ =>
  }

  /** While a MAC stays in the table its sample counter is the number of reports put for it, modulo 2^32. */
  lemma {:induction false} CountersCountPuts(es: seq<Event>)
    requires CountersStartAtZero(es)
    ensures CountersAgree(Run(es).cells, mac => PutsSince(es, mac))
  {
    if es == [] {
    } else {
      CountersCountPuts(Before(es));
      StepKeepsCounters(Run(Before(es)), Last(es), mac => PutsSince(Before(es), mac));
    }
  }
}

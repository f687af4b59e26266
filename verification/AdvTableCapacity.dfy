/** The retransmission queues at and beyond capacity: what a read returns then, and when a report is overwritten that
    nobody has read. */
module AdvTableCapacity {
  import opened Lists
  import opened AdvReport
  import opened AdvTableModel
  import opened AdvTableInvariant
  import opened AdvTableCache
  import opened AdvTableDelivery

  // ---------- reads beyond capacity ----------

  lemma FullStaysFull(t: Table, adv: Report, k: QueueNo)
    requires Inv(t) && PendingPrefix(t.hist, t.queues[k]) && |t.queues[k]| == MAX_ADVS_TABLE
    ensures Put(t, adv).queues[k] == t.queues[k]
  {
    TargetFacts(t, adv);
    var i := IndexOf(t.hist, Target(t, adv));
    assert t.hist[i] in t.queues[k];
    PutQueue(t, adv, k);
  }

  lemma StepFillsQueue(t: Table, e: Event, k: QueueNo, log: seq<Report>)
    requires Inv(t) && PendingPrefix(t.hist, t.queues[k]) && Delivers(t, k, log) && (k == MQTT ==> !e.EvPopMqtt?)
    requires |FirstOrder(log)| > MAX_ADVS_TABLE ==> |t.queues[k]| == MAX_ADVS_TABLE
    requires |FirstOrder(NextLog(t, e, k, log))| > MAX_ADVS_TABLE
    ensures |Step(t, e).queues[k]| == MAX_ADVS_TABLE
  {
    if e.EvPut? {
      if Accepts(t, e.adv) {
        LogSnoc(log, e.adv);
      }
      FullStaysFull(t, e.adv, k);
    } else if e != EvReadQueue(k) && !e.EvClear? {
      QuietStepKeepsReports(t, e, k, 0);
    }
  }

  /** After more MACs than the table has cells, all cells are pending. */
  lemma {:induction false} BeyondCapacityIsFull(es: seq<Event>, k: QueueNo)
    requires ReadWhole(es, k)
    ensures |FirstOrder(Log(es, k))| > MAX_ADVS_TABLE ==> |Run(es).queues[k]| == MAX_ADVS_TABLE
  {
    if es == [] {
    } else {
      var earlier := Before(es);
      assert ReadWhole(earlier, k);
      BeyondCapacityIsFull(earlier, k);
      PrefixOverRuns(earlier, k);
      DeliveryOverRuns(earlier, k);
      if |FirstOrder(Log(es, k))| > MAX_ADVS_TABLE {
        StepFillsQueue(Run(earlier), Last(es), k, Log(earlier, k));
      }
    }
  }

  /** A cell in use is the one of the history list that holds its MAC. */
  lemma MacPlace(t: Table, recency: seq<Mac>, c: nat) returns (i: nat)
    requires Inv(t) && LruAgrees(t, recency) && c < MAX_ADVS_TABLE && t.cells[c].inHash
    ensures i < MAX_ADVS_TABLE && t.hist[i] == c && i < |recency| && t.cells[c].report.mac == recency[i]
  {
    i := IndexOf(t.hist, c);
    assert LruAt(t, recency, i);
  }

  /** The pending MACs are those of the pending cells, at their places in the order of recency. */
  lemma ReturnedIffPending(t: Table, k: QueueNo, recency: seq<Mac>, i: nat)
    requires Inv(t) && LruAgrees(t, recency) && i < |recency| && i < MAX_ADVS_TABLE
    ensures ReadReturns(t, k, recency[i]) <==> t.hist[i] in t.queues[k]
  {
    assert QueueOk(t, k);
    assert LruAt(t, recency, i);
    if t.hist[i] in t.queues[k] {
      var n := IndexOf(t.queues[k], t.hist[i]);
      assert t.cells[t.queues[k][n]].report.mac == recency[i];
    }
    if ReadReturns(t, k, recency[i]) {
      var n :| 0 <= n < |t.queues[k]| && t.cells[t.queues[k][n]].report.mac == recency[i];
      var c := t.queues[k][n];
      assert c in t.queues[k];
      assert t.cells[c].inHash && t.cells[t.hist[i]].inHash;
    }
  }

  lemma ReturnedIsRecent(t: Table, k: QueueNo, recency: seq<Mac>, mac: Mac)
    requires Inv(t) && LruAgrees(t, recency) && ReadReturns(t, k, mac)
    ensures mac in Prefix(recency, MAX_ADVS_TABLE)
  {
    assert QueueOk(t, k);
    var n :| 0 <= n < |t.queues[k]| && t.cells[t.queues[k][n]].report.mac == mac;
    assert t.queues[k][n] in t.queues[k];
    var i := MacPlace(t, recency, t.queues[k][n]);
    assert Prefix(recency, MAX_ADVS_TABLE)[i] == mac;
  }

  lemma FullReadReturnsRecent(t: Table, k: QueueNo, recency: seq<Mac>, mac: Mac)
    requires Inv(t) && PendingPrefix(t.hist, t.queues[k]) && LruAgrees(t, recency)
    requires |t.queues[k]| == MAX_ADVS_TABLE
    ensures ReadReturns(t, k, mac) <==> mac in Prefix(recency, MAX_ADVS_TABLE)
  {
    if mac in Prefix(recency, MAX_ADVS_TABLE) {
      var i := IndexOf(Prefix(recency, MAX_ADVS_TABLE), mac);
      assert recency[i] == mac && t.hist[i] in t.queues[k];
      ReturnedIffPending(t, k, recency, i);
    }
    if ReadReturns(t, k, mac) {
      ReturnedIsRecent(t, k, recency, mac);
    }
  }

  ghost predicate ReturnsLatest(es: seq<Event>, k: QueueNo) {
    var t := Run(es);
    var read := Reports(t.cells, t.queues[k]);
    forall i :: 0 <= i < |read| ==> SameAdvertisement(read[i], Latest(es, read[i].mac))
  }

  /** Whatever queue is read and whenever, every report that it returns is the latest accepted one of its MAC. */
  lemma ReadReturnsLatest(es: seq<Event>, k: QueueNo)
    ensures ReturnsLatest(es, k)
  {
    LatestOverRuns(es);
    var t := Run(es);
    assert QueueOk(t, k);
    var read := Reports(t.cells, t.queues[k]);
    forall i | 0 <= i < |read| ensures SameAdvertisement(read[i], Latest(es, read[i].mac)) {
      assert t.queues[k][i] in t.queues[k];
    }
  }

  /** A read after more accepted MACs than the table has cells returns exactly the most recently accepted ones, as many
      as there are cells, each with its latest report. */
  lemma ReadBeyondCapacity(es: seq<Event>, k: QueueNo)
    requires ReadWhole(es, k) && |FirstOrder(Log(es, k))| > MAX_ADVS_TABLE
    ensures |Run(es).queues[k]| == MAX_ADVS_TABLE
    ensures forall mac :: ReadReturns(Run(es), k, mac) <==> mac in Prefix(Recency(es), MAX_ADVS_TABLE)
    ensures ReturnsLatest(es, k)
  {
    BeyondCapacityIsFull(es, k);
    PrefixOverRuns(es, k);
    LruOverRuns(es);
    forall mac ensures ReadReturns(Run(es), k, mac) <==> mac in Prefix(Recency(es), MAX_ADVS_TABLE) {
      FullReadReturnsRecent(Run(es), k, Recency(es), mac);
    }
    ReadReturnsLatest(es, k);
  }

  // ---------- reports that are overwritten although there is room ----------

  /** All cells are pending if and only if there are as many pending ones as cells. */
  lemma RoomIff(t: Table, k: QueueNo)
    requires Inv(t)
    ensures |t.queues[k]| < MAX_ADVS_TABLE
       <==> exists i :: 0 <= i < MAX_ADVS_TABLE && t.hist[i] !in t.queues[k]
  {
    QueueFits(t, k);
    assert QueueOk(t, k);
    if i :| 0 <= i < MAX_ADVS_TABLE && t.hist[i] !in t.queues[k] {
      DistinctAppend(t.queues[k], t.hist[i]);
      Pigeonhole(t.queues[k] + [t.hist[i]], MAX_ADVS_TABLE);
    } else {
      forall c | c in t.hist ensures c in t.queues[k] {
        assert t.hist[IndexOf(t.hist, c)] in t.queues[k];
      }
      CoveredSize(t.hist, t.queues[k]);
    }
  }

  ghost predicate OverwritesDespiteRoom(t: Table, adv: Report, k: QueueNo)
    requires Inv(t)
  {
    Target(t, adv) in t.queues[k] && |t.queues[k]| < MAX_ADVS_TABLE
  }

  /** The least recent MAC of the table is still waiting although a more recent one is not. */
  ghost predicate WaitsBehindOthers(t: Table, k: QueueNo, recency: seq<Mac>)
    requires Shape(t)
  {
    && |recency| >= MAX_ADVS_TABLE && ReadReturns(t, k, recency[MAX_ADVS_TABLE - 1])
    && exists i :: 0 <= i < MAX_ADVS_TABLE && !ReadReturns(t, k, recency[i])
  }

  lemma LastPendingIff(t: Table, k: QueueNo, recency: seq<Mac>)
    requires Inv(t) && LruAgrees(t, recency)
    ensures t.hist[MAX_ADVS_TABLE - 1] in t.queues[k]
       <==> |recency| >= MAX_ADVS_TABLE && ReadReturns(t, k, recency[MAX_ADVS_TABLE - 1])
  {
    assert QueueOk(t, k);
    assert LruAt(t, recency, MAX_ADVS_TABLE - 1);
    if |recency| >= MAX_ADVS_TABLE {
      ReturnedIffPending(t, k, recency, MAX_ADVS_TABLE - 1);
    }
  }

  lemma SomeNotPendingIff(t: Table, k: QueueNo, recency: seq<Mac>)
    requires Inv(t) && LruAgrees(t, recency) && |recency| >= MAX_ADVS_TABLE
    ensures |t.queues[k]| < MAX_ADVS_TABLE
       <==> exists i :: 0 <= i < MAX_ADVS_TABLE && !ReadReturns(t, k, recency[i])
  {
    RoomIff(t, k);
    forall i: nat | i < MAX_ADVS_TABLE ensures ReadReturns(t, k, recency[i]) <==> t.hist[i] in t.queues[k] {
      ReturnedIffPending(t, k, recency, i);
    }
  }

  /** Over any run, with reads of any kind: a report with a new MAC overwrites one that nobody has read, although fewer
      than all are pending, if and only if the least recent MAC of the table waits while a more recent one does not. */
  lemma OverwritesDespiteRoomIff(es: seq<Event>, adv: Report, k: QueueNo)
    requires Scan(Run(es).cells, adv.mac).None?
    ensures OverwritesDespiteRoom(Run(es), adv, k) <==> WaitsBehindOthers(Run(es), k, Recency(es))
  {
    LruOverRuns(es);
    TargetFacts(Run(es), adv);
    LastPendingIff(Run(es), k, Recency(es));
    if |Recency(es)| >= MAX_ADVS_TABLE {
      SomeNotPendingIff(Run(es), k, Recency(es));
    }
  }

  // ---------- and such a run ----------

  ghost predicate DifferentMacs(rs: seq<Report>) {
    forall i, j :: 0 <= i < j < |rs| ==> rs[i].mac != rs[j].mac
  }

  function Puts(rs: seq<Report>): (es: seq<Event>)
    ensures |es| == |rs| && forall i :: 0 <= i < |es| ==> es[i].EvPut?
  {
    if rs == [] then [] else Puts(rs[..|rs| - 1]) + [EvPut(Last(rs))]
  }

  /** The MAC is in no cell. */
  predicate Unknown(t: Table, mac: Mac) {
    Scan(t.cells, mac).None?
  }

  /** `n` reports have been put, and wait for MQTT behind the first of them. */
  ghost predicate Filled(t: Table, n: nat, first: Report) {
    && Inv(t) && PendingPrefix(t.hist, t.queues[MQTT]) && |t.queues[MQTT]| == n
    && (n > 0 ==> t.cells[t.queues[MQTT][0]].inHash && t.cells[t.queues[MQTT][0]].report == first)
  }

  lemma PutFillsOne(t: Table, n: nat, first: Report, adv: Report)
    requires Filled(t, n, first) && n < MAX_ADVS_TABLE && Unknown(t, adv.mac) && (n == 0 ==> adv == first)
    ensures Filled(Put(t, adv), n + 1, first)
  {
    PutKeepsInv(t, adv);
    NewMacTarget(t, adv, MQTT);
    TargetFacts(t, adv);
    TouchKeepsPrefix(t.hist, t.queues[MQTT], Target(t, adv));
    PutOrder(t, adv);
    PutCellsFacts(t, adv);
  }

  lemma StaysUnknown(t: Table, adv: Report, mac: Mac)
    requires Inv(t) && Unknown(t, mac) && mac != adv.mac
    requires Shape(Put(t, adv))
    ensures Unknown(Put(t, adv), mac)
  {
    TargetFacts(t, adv);
    PutCellsFacts(t, adv);
    forall c | 0 <= c < MAX_ADVS_TABLE ensures !Holds(PutCells(t, adv)[c], mac) {
      assert !Holds(t.cells[c], mac);
    }
  }

  ghost predicate AllUnknown(t: Table, rs: seq<Report>, n: nat) {
    forall m :: n <= m < |rs| ==> Unknown(t, rs[m].mac)
  }

  lemma OneMorePut(t: Table, rs: seq<Report>, n: nat)
    requires DifferentMacs(rs) && n < |rs| && n < MAX_ADVS_TABLE
    requires Filled(t, n, rs[0]) && AllUnknown(t, rs, n)
    ensures Filled(Put(t, rs[n]), n + 1, rs[0]) && AllUnknown(Put(t, rs[n]), rs, n + 1)
  {
    PutFillsOne(t, n, rs[0], rs[n]);
    forall m | n + 1 <= m < |rs| ensures Unknown(Put(t, rs[n]), rs[m].mac) {
      StaysUnknown(t, rs[n], rs[m].mac);
    }
  }

  lemma NothingFilled(rs: seq<Report>)
    requires rs != []
    ensures Run(Puts(rs[..0])) == InitTable() && Filled(InitTable(), 0, rs[0]) && AllUnknown(InitTable(), rs, 0)
  {
    InitHasInv();
    forall m | 0 <= m < |rs| ensures Unknown(InitTable(), rs[m].mac) {
      assert forall c :: 0 <= c < MAX_ADVS_TABLE ==> !InitTable().cells[c].inHash;
    }
  }

  lemma PutsSnoc(rs: seq<Report>, n: nat)
    requires n < |rs|
    ensures Run(Puts(rs[..n + 1])) == Put(Run(Puts(rs[..n])), rs[n])
  {
    assert rs[..n + 1][..n] == rs[..n];
    RunPut(Puts(rs[..n]), rs[n]);
  }

  lemma {:induction false} PutsFill(rs: seq<Report>, n: nat)
    requires DifferentMacs(rs) && n <= |rs| && n <= MAX_ADVS_TABLE && rs != []
    ensures Filled(Run(Puts(rs[..n])), n, rs[0]) && AllUnknown(Run(Puts(rs[..n])), rs, n)
  {
    if n == 0 {
      NothingFilled(rs);
    } else {
      PutsFill(rs, n - 1);
      PutsSnoc(rs, n - 1);
      OneMorePut(Run(Puts(rs[..n - 1])), rs, n - 1);
    }
  }

  lemma PopKeepsUnknown(t: Table, mac: Mac)
    requires Inv(t) && t.queues[MQTT] != [] && Unknown(t, mac)
    ensures Unknown(PopMqtt(t), mac)
  {
    PopMqttKeepsShape(t);
    forall c | 0 <= c < MAX_ADVS_TABLE ensures !Holds(PopMqtt(t).cells[c], mac) {
      assert !Holds(t.cells[c], mac);
    }
  }

  lemma LastStaysPending(t: Table)
    requires Inv(t) && |t.queues[MQTT]| == MAX_ADVS_TABLE && t.hist[0] == t.queues[MQTT][0]
    ensures t.hist[MAX_ADVS_TABLE - 1] in t.queues[MQTT][1..]
  {
    var q, last := t.queues[MQTT], t.hist[MAX_ADVS_TABLE - 1];
    RoomIff(t, MQTT);
    assert q == [q[0]] + q[1..];
    assert last in q && last != q[0];
  }

  lemma PopTakesHead(t: Table, adv: Report)
    requires Inv(t) && |t.queues[MQTT]| == MAX_ADVS_TABLE && t.hist[0] == t.queues[MQTT][0] && Unknown(t, adv.mac)
    ensures Inv(PopMqtt(t))
    ensures var t' := PopMqtt(t);
            Unknown(t', adv.mac) && |t'.queues[MQTT]| == MAX_ADVS_TABLE - 1 && OverwritesDespiteRoom(t', adv, MQTT)
  {
    PopMqttKeepsInv(t);
    PopMqttKeepsShape(t);
    PopKeepsUnknown(t, adv.mac);
    LastStaysPending(t);
    TargetFacts(PopMqtt(t), adv);
  }

  /** Full, an update of the report at the head, one read from the head: the next new MAC overwrites. */
  lemma UpdateReadOverwrite(t: Table, first: Report, update: Report, adv: Report)
    requires Filled(t, MAX_ADVS_TABLE, first) && update.mac == first.mac && !MustBeDiscarded(update, first)
    requires Unknown(t, adv.mac) && adv.mac != first.mac
    ensures Inv(Put(t, update)) && Inv(PopMqtt(Put(t, update)))
    ensures var t' := PopMqtt(Put(t, update));
            Unknown(t', adv.mac) && |t'.queues[MQTT]| == MAX_ADVS_TABLE - 1 && OverwritesDespiteRoom(t', adv, MQTT)
  {
    var q := t.queues[MQTT];
    assert Holds(t.cells[q[0]], update.mac);
    TargetFacts(t, update);
    assert Target(t, update) == q[0] && Accepts(t, update);
    PutKeepsInv(t, update);
    FullStaysFull(t, update, MQTT);
    PutOrder(t, update);
    StaysUnknown(t, update, adv.mac);
    PopTakesHead(Put(t, update), adv);
  }

  /** For any reports of 101 different MACs and any update of the first: put 100, update the first, read one from the
      head. Then the last MAC overwrites a report that nobody has read, although only 99 are pending. */
  lemma UnreadCanBeOverwritten(rs: seq<Report>, update: Report)
    requires |rs| == MAX_ADVS_TABLE + 1 && DifferentMacs(rs)
    requires update.mac == rs[0].mac && !MustBeDiscarded(update, rs[0])
    ensures var es := Puts(rs[..MAX_ADVS_TABLE]) + [EvPut(update)] + [EvPopMqtt];
            && |Run(es).queues[MQTT]| == MAX_ADVS_TABLE - 1
            && Unknown(Run(es), rs[MAX_ADVS_TABLE].mac)
            && OverwritesDespiteRoom(Run(es), rs[MAX_ADVS_TABLE], MQTT)
  {
    var puts := Puts(rs[..MAX_ADVS_TABLE]);
    PutsFill(rs, MAX_ADVS_TABLE);
    assert Unknown(Run(puts), rs[MAX_ADVS_TABLE].mac);
    UpdateReadOverwrite(Run(puts), rs[0], update, rs[MAX_ADVS_TABLE]);
    RunPutPop(puts, update);
  }
}

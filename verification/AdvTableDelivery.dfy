/** What the retransmission queues deliver: nothing is lost below capacity, nothing is dropped or repeated. */
module AdvTableDelivery {
  import opened Lists
  import opened AdvReport
  import opened AdvTableModel
  import opened AdvTableInvariant

  // ---------- when a report is overwritten before it was read ----------

  lemma LastIsPendingIffAllAre(hist: seq<nat>, queue: seq<nat>)
    requires |hist| == MAX_ADVS_TABLE && |queue| <= MAX_ADVS_TABLE && PendingPrefix(hist, queue)
    ensures hist[MAX_ADVS_TABLE - 1] in queue <==> |queue| == MAX_ADVS_TABLE
  {
  }

  lemma StepKeepsMqttPrefix(t: Table, e: Event)
    requires Inv(t) && PendingPrefix(t.hist, t.queues[MQTT]) && !e.EvPopMqtt?
    ensures PendingPrefix(Step(t, e).hist, Step(t, e).queues[MQTT])
  {
    if e.EvPut? && Accepts(t, e.adv) {
      TargetFacts(t, e.adv);
      TouchKeepsPrefix(t.hist, t.queues[MQTT], Target(t, e.adv));
    }
  }

  /** For the MQTT queue this needs that no report is taken from its head one at a time. */
  lemma {:induction false} MqttPendingPrefixWithoutPops(es: seq<Event>)
    requires forall i :: 0 <= i < |es| ==> !es[i].EvPopMqtt?
    ensures PendingPrefix(Run(es).hist, Run(es).queues[MQTT])
  {
    if es == [] {
    } else {
      MqttPendingPrefixWithoutPops(Before(es));
      StepKeepsMqttPrefix(Run(Before(es)), Last(es));
    }
  }

  /** Queue `k` is only ever read as a whole. The two HTTP queues always are. */
  ghost predicate ReadWhole(es: seq<Event>, k: QueueNo) {
    k == MQTT ==> forall i :: 0 <= i < |es| ==> !es[i].EvPopMqtt?
  }

  lemma HttpPrefix(t: Table, k: QueueNo)
    requires Inv(t) && k != MQTT
    ensures PendingPrefix(t.hist, t.queues[k])
  {
    if k == HTTP_RUUVI {
      assert PendingPrefix(t.hist, t.queues[HTTP_RUUVI]);
    } else {
      assert PendingPrefix(t.hist, t.queues[HTTP_CUSTOM]);
    }
  }

  lemma PrefixOverRuns(es: seq<Event>, k: QueueNo)
    requires ReadWhole(es, k)
    ensures PendingPrefix(Run(es).hist, Run(es).queues[k])
  {
    if k == MQTT {
      MqttPendingPrefixWithoutPops(es);
    } else {
      HttpPrefix(Run(es), k);
    }
  }

  lemma NewMacTarget(t: Table, adv: Report, k: QueueNo)
    requires Inv(t) && PendingPrefix(t.hist, t.queues[k]) && Scan(t.cells, adv.mac).None?
    ensures Target(t, adv) in t.queues[k] <==> |t.queues[k]| == MAX_ADVS_TABLE
  {
    QueueFits(t, k);
    LastIsPendingIffAllAre(t.hist, t.queues[k]);
  }

  /** A report with a new MAC overwrites one that a queue still has to deliver exactly when all cells are pending in
      that queue. */
  lemma NewMacOverwritesUnreadIffAllPending(es: seq<Event>, adv: Report, k: QueueNo)
    requires ReadWhole(es, k)
    requires Scan(Run(es).cells, adv.mac).None?
    ensures Target(Run(es), adv) in Run(es).queues[k] <==> |Run(es).queues[k]| == MAX_ADVS_TABLE
  {
    PrefixOverRuns(es, k);
    NewMacTarget(Run(es), adv, k);
  }

  /** One read from the head keeps the prefix exactly when it takes the least recently accepted pending cell. */
  lemma PopKeepsPendingPrefixIff(t: Table)
    requires Inv(t) && PendingPrefix(t.hist, t.queues[MQTT]) && t.queues[MQTT] != []
    ensures |t.queues[MQTT]| <= MAX_ADVS_TABLE
    ensures PendingPrefix(PopMqtt(t).hist, PopMqtt(t).queues[MQTT])
       <==> t.queues[MQTT][0] == t.hist[|t.queues[MQTT]| - 1]
  {
    QueueFits(t, MQTT);
    assert QueueOk(t, MQTT);
    var q := t.queues[MQTT];
    var k := IndexOf(t.hist, q[0]);
    assert q == [q[0]] + q[1..];
    assert forall i :: 0 <= i < |t.hist| ==> (t.hist[i] in q[1..] <==> i < |q| && i != k);
    assert k < |q| && t.hist[|q| - 1] in q;
  }

  lemma PutOrder(t: Table, adv: Report)
    requires Inv(t) && Accepts(t, adv)
    ensures Put(t, adv).hist[0] == Target(t, adv)
    ensures Put(t, adv).queues[MQTT] == Enqueue(t.queues[MQTT], Target(t, adv))
  {
  }

  ghost predicate Unused(t: Table) {
    Inv(t) && (forall c :: 0 <= c < MAX_ADVS_TABLE ==> !t.cells[c].inHash) && t.queues[MQTT] == []
  }

  lemma FirstMac(t: Table, adv: Report)
    requires Unused(t)
    ensures var t', a := Put(t, adv), Target(t, adv);
            && a < MAX_ADVS_TABLE
            && t'.queues[MQTT] == [a]
            && t'.cells[a].inHash && t'.cells[a].report == adv
            && (forall mac :: mac != adv.mac ==> Scan(t'.cells, mac).None?)
  {
    assert Scan(t.cells, adv.mac).None?;
    PutOrder(t, adv);
    PutCellsFacts(t, adv);
  }

  lemma SecondMac(t: Table, adv: Report)
    requires Inv(t) && |t.queues[MQTT]| == 1 && PendingPrefix(t.hist, t.queues[MQTT])
    requires Scan(t.cells, adv.mac).None?
    ensures var t', a := Put(t, adv), t.queues[MQTT][0];
            Inv(t') && |t'.queues[MQTT]| == 2 && t'.queues[MQTT][0] == a && t'.cells[a] == t.cells[a]
  {
    PutKeepsInv(t, adv);
    TargetFacts(t, adv);
    assert t.hist[MAX_ADVS_TABLE - 1] !in t.queues[MQTT];
    PutOrder(t, adv);
    PutCellsFacts(t, adv);
  }

  lemma UpdateThenPop(t: Table, adv: Report)
    requires Inv(t) && PendingPrefix(t.hist, t.queues[MQTT]) && |t.queues[MQTT]| >= 2
    requires Accepts(t, adv) && Target(t, adv) == t.queues[MQTT][0]
    requires Inv(Put(t, adv))
    ensures !PendingPrefix(PopMqtt(Put(t, adv)).hist, PopMqtt(Put(t, adv)).queues[MQTT])
  {
    PutOrder(t, adv);
    TargetFacts(t, adv);
    TouchKeepsPrefix(t.hist, t.queues[MQTT], Target(t, adv));
    PopKeepsPendingPrefixIff(Put(t, adv));
  }

  lemma UnusedThenPrefixFails(t: Table, adv1: Report, adv2: Report, adv1': Report)
    requires adv1.mac == adv1'.mac != adv2.mac && !MustBeDiscarded(adv1', adv1)
    requires Unused(t)
    ensures Inv(Put(t, adv1)) && Inv(Put(Put(t, adv1), adv2)) && Inv(Put(Put(Put(t, adv1), adv2), adv1'))
    ensures var t' := PopMqtt(Put(Put(Put(t, adv1), adv2), adv1')); !PendingPrefix(t'.hist, t'.queues[MQTT])
  {
    PutKeepsInv(t, adv1);
    FirstMac(t, adv1);
    var t1 := Put(t, adv1);
    TargetFacts(t, adv1);
    TouchKeepsPrefix(t.hist, t.queues[MQTT], Target(t, adv1));
    SecondMac(t1, adv2);
    var t2 := Put(t1, adv2);
    TargetFacts(t1, adv2);
    TouchKeepsPrefix(t1.hist, t1.queues[MQTT], Target(t1, adv2));
    TargetFacts(t2, adv1');
    PutKeepsInv(t2, adv1');
    UpdateThenPop(t2, adv1');
  }

  lemma RunOfTwo(adv1: Report, adv2: Report)
    ensures Shape(Put(InitTable(), adv1)) && Run([EvPut(adv1)] + [EvPut(adv2)]) == Put(Put(InitTable(), adv1), adv2)
  {
    RunPut([], adv1);
    assert [] + [EvPut(adv1)] == [EvPut(adv1)];
    RunPut([EvPut(adv1)], adv2);
  }

  lemma RunPutPop(es: seq<Event>, adv: Report)
    requires Inv(Put(Run(es), adv))
    ensures Run(es + [EvPut(adv)] + [EvPopMqtt]) == PopMqtt(Put(Run(es), adv))
  {
    RunPut(es, adv);
    RunSnoc(es + [EvPut(adv)], EvPopMqtt);
  }

  /** A run that breaks it: two MACs, an update of the first, and one read. The second MAC is still pending while
      the first, more recently accepted, is not. */
  lemma MqttPendingPrefixCanFail(adv1: Report, adv2: Report, adv1': Report)
    requires adv1.mac == adv1'.mac != adv2.mac && !MustBeDiscarded(adv1', adv1)
    ensures var es := [EvPut(adv1)] + [EvPut(adv2)] + [EvPut(adv1')] + [EvPopMqtt];
            !PendingPrefix(Run(es).hist, Run(es).queues[MQTT])
  {
    InitHasInv();
    UnusedThenPrefixFails(InitTable(), adv1, adv2, adv1');
    RunOfTwo(adv1, adv2);
    RunPutPop([EvPut(adv1)] + [EvPut(adv2)], adv1');
  }

  // ---------- what a read of a queue delivers ----------

  function NextLog(t: Table, e: Event, k: QueueNo, log: seq<Report>): seq<Report> {
    match e
    case EvPut(adv) => if Accepts(t, adv) then log + [adv] else log
    case EvReadQueue(l) => if l == k then [] else log
    case EvClear => []
    case _ => log
  }

  /** The reports accepted since queue `k` was last read or cleared, in order. */
  ghost function Log(es: seq<Event>, k: QueueNo): seq<Report> {
    if es == [] then [] else NextLog(Run(Before(es)), Last(es), k, Log(Before(es), k))
  }

  /** The distinct MACs of a log, in order of their first report. */
  function FirstOrder(log: seq<Report>): (r: seq<Mac>)
    ensures Distinct(r)
    ensures forall i :: 0 <= i < |log| ==> log[i].mac in r
  {
    if log == [] then []
    else
      var earlier := FirstOrder(log[..|log| - 1]);
      assert forall i :: 0 <= i < |log| - 1 ==> log[i] == log[..|log| - 1][i];
      if Last(log).mac in earlier then earlier else earlier + [Last(log).mac]
  }

  /** The last report of a log for `mac`. */
  function LastFor(log: seq<Report>, mac: Mac): Report {
    if log == [] then BLANK_REPORT
    else if Last(log).mac == mac then Last(log)
    else LastFor(log[..|log| - 1], mac)
  }

  ghost predicate DeliversAt(t: Table, k: QueueNo, log: seq<Report>, i: nat)
    requires Shape(t) && i < |t.queues[k]|
  {
    var r := t.cells[t.queues[k][i]].report;
    i < |FirstOrder(log)| && r.mac == FirstOrder(log)[i] && SameAdvertisement(r, LastFor(log, r.mac))
  }

  ghost predicate Delivers(t: Table, k: QueueNo, log: seq<Report>)
    requires Shape(t)
  {
    |FirstOrder(log)| <= MAX_ADVS_TABLE ==>
      && |t.queues[k]| == |FirstOrder(log)|
      && forall i: nat :: i < |t.queues[k]| ==> DeliversAt(t, k, log, i)
  }

  lemma LogSnoc(log: seq<Report>, adv: Report)
    ensures FirstOrder(log + [adv])
         == if adv.mac in FirstOrder(log) then FirstOrder(log) else FirstOrder(log) + [adv.mac]
    ensures forall mac :: LastFor(log + [adv], mac) == if mac == adv.mac then adv else LastFor(log, mac)
  {
    assert (log + [adv])[..|log|] == log;
  }

  /** An accepted report goes to a pending cell exactly when its MAC is already in the log. */
  lemma PendingIffLogged(t: Table, adv: Report, k: QueueNo, log: seq<Report>)
    requires Inv(t) && PendingPrefix(t.hist, t.queues[k]) && Delivers(t, k, log) && Accepts(t, adv)
    requires |FirstOrder(log + [adv])| <= MAX_ADVS_TABLE
    ensures |FirstOrder(log)| <= MAX_ADVS_TABLE
    ensures Target(t, adv) in t.queues[k] <==> adv.mac in FirstOrder(log)
    ensures Target(t, adv) in t.queues[k] ==> Holds(t.cells[Target(t, adv)], adv.mac)
  {
    LogSnoc(log, adv);
    TargetFacts(t, adv);
    assert QueueOk(t, k);
    var c, order, queue := Target(t, adv), FirstOrder(log), t.queues[k];
    if adv.mac in order {
      var i := IndexOf(order, adv.mac);
      assert DeliversAt(t, k, log, i);
      assert queue[i] in queue && Holds(t.cells[queue[i]], adv.mac);
    } else {
      assert PendingPrefix(t.hist, queue);
      forall i: nat | i < |queue| ensures queue[i] != c { assert DeliversAt(t, k, log, i); }
    }
  }

  /** What was pending keeps its place, and its report unless it is the one that is replaced. */
  lemma PendingKeepsPlace(t: Table, adv: Report, k: QueueNo, i: nat)
    requires Indexed(t) && QueueOk(t, k) && Accepts(t, adv)
    requires Target(t, adv) in t.queues[k] ==> Holds(t.cells[Target(t, adv)], adv.mac)
    requires i < |t.queues[k]|
    requires Shape(Put(t, adv))
    ensures i < |Put(t, adv).queues[k]| && Put(t, adv).queues[k][i] == t.queues[k][i]
    ensures var before, r := t.cells[t.queues[k][i]].report, PutCells(t, adv)[t.queues[k][i]].report;
            && r.mac == before.mac
            && if r.mac == adv.mac then SameAdvertisement(r, adv) else r == before
  {
    TargetFacts(t, adv);
    PutQueue(t, adv, k);
    PutCellsFacts(t, adv);
    var c := t.queues[k][i];
    assert c in t.queues[k];
    if c != Target(t, adv) { assert !Holds(t.cells[c], adv.mac) && t.cells[c].inHash; }
  }

  lemma PutDeliversOldAt(t: Table, adv: Report, k: QueueNo, log: seq<Report>, i: nat)
    requires Indexed(t) && QueueOk(t, k) && Accepts(t, adv)
    requires Target(t, adv) in t.queues[k] ==> Holds(t.cells[Target(t, adv)], adv.mac)
    requires i < |t.queues[k]| && DeliversAt(t, k, log, i)
    requires Shape(Put(t, adv))
    ensures i < |Put(t, adv).queues[k]| && DeliversAt(Put(t, adv), k, log + [adv], i)
  {
    LogSnoc(log, adv);
    PendingKeepsPlace(t, adv, k, i);
  }

  lemma PutDeliversAt(t: Table, adv: Report, k: QueueNo, log: seq<Report>, i: nat)
    requires Inv(t) && PendingPrefix(t.hist, t.queues[k]) && Delivers(t, k, log) && Accepts(t, adv)
    requires |FirstOrder(log + [adv])| <= MAX_ADVS_TABLE
    requires Shape(Put(t, adv)) && i < |Put(t, adv).queues[k]|
    ensures DeliversAt(Put(t, adv), k, log + [adv], i)
  {
    PendingIffLogged(t, adv, k, log);
    if i < |t.queues[k]| {
      assert QueueOk(t, k) && DeliversAt(t, k, log, i);
      PutDeliversOldAt(t, adv, k, log, i);
    } else {
      LogSnoc(log, adv);
      PutCellsFacts(t, adv);
    }
  }

  lemma PutDelivers(t: Table, adv: Report, k: QueueNo, log: seq<Report>)
    requires Inv(t) && PendingPrefix(t.hist, t.queues[k]) && Delivers(t, k, log)
    requires Inv(Put(t, adv))
    ensures Delivers(Put(t, adv), k, NextLog(t, EvPut(adv), k, log))
  {
    var log', t' := log + [adv], Put(t, adv);
    if !Accepts(t, adv) {
      PutCellsFacts(t, adv);
      forall i: nat | |FirstOrder(log)| <= MAX_ADVS_TABLE && i < |t'.queues[k]| ensures DeliversAt(t', k, log, i) {
        assert DeliversAt(t, k, log, i);
      }
    } else if |FirstOrder(log')| <= MAX_ADVS_TABLE {
      LogSnoc(log, adv);
      PendingIffLogged(t, adv, k, log);
      forall i: nat | i < |t'.queues[k]| ensures DeliversAt(t', k, log', i) {
        PutDeliversAt(t, adv, k, log, i);
      }
    }
  }

  lemma QuietStepKeepsReports(t: Table, e: Event, k: QueueNo, c: nat)
    requires Inv(t) && (k == MQTT ==> !e.EvPopMqtt?) && !e.EvPut? && !e.EvClear? && e != EvReadQueue(k)
    requires c < MAX_ADVS_TABLE
    ensures Step(t, e).queues[k] == t.queues[k]
    ensures SameAdvertisement(Step(t, e).cells[c].report, t.cells[c].report)
  {
  }

  lemma QuietStepDeliversAt(t: Table, e: Event, k: QueueNo, log: seq<Report>, i: nat)
    requires Inv(t) && (k == MQTT ==> !e.EvPopMqtt?) && !e.EvPut? && !e.EvClear? && e != EvReadQueue(k)
    requires i < |t.queues[k]| && DeliversAt(t, k, log, i)
    ensures i < |Step(t, e).queues[k]| && DeliversAt(Step(t, e), k, log, i)
  {
    QuietStepKeepsReports(t, e, k, t.queues[k][i]);
  }

  lemma QuietStepDelivers(t: Table, e: Event, k: QueueNo, log: seq<Report>)
    requires Inv(t) && Delivers(t, k, log) && !e.EvPut? && (k == MQTT ==> !e.EvPopMqtt?)
    ensures Delivers(Step(t, e), k, NextLog(t, e, k, log))
  {
    if e == EvReadQueue(k) || e.EvClear? {
      assert Step(t, e).queues[k] == [];
    } else if |FirstOrder(log)| <= MAX_ADVS_TABLE {
      QuietStepKeepsReports(t, e, k, 0);
      forall i: nat | i < |Step(t, e).queues[k]| ensures DeliversAt(Step(t, e), k, log, i) {
        QuietStepDeliversAt(t, e, k, log, i);
      }
    }
  }

  lemma {:induction false} DeliveryOverRuns(es: seq<Event>, k: QueueNo)
    requires ReadWhole(es, k)
    ensures Delivers(Run(es), k, Log(es, k))
  {
    if es == [] {
      assert Run(es).queues[k] == [];
    } else {
      assert ReadWhole(Before(es), k);
      DeliveryOverRuns(Before(es), k);
      PrefixOverRuns(Before(es), k);
      var t, e := Run(Before(es)), Last(es);
      if e.EvPut? { PutKeepsInv(t, e.adv); PutDelivers(t, e.adv, k, Log(Before(es), k)); }
      else { QuietStepDelivers(t, e, k, Log(Before(es), k)); }
    }
  }

  ghost predicate DeliveredOnce(read: seq<Report>, log: seq<Report>) {
    && |read| == |FirstOrder(log)|
    && forall i :: 0 <= i < |read| ==>
                     read[i].mac == FirstOrder(log)[i] && SameAdvertisement(read[i], LastFor(log, read[i].mac))
  }

  /** A read of a queue after at most MAX_ADVS_TABLE distinct accepted MACs returns each of them once, with
      its last accepted advertisement, in order of first acceptance. */
  lemma ReadDeliversEachMacOnce(es: seq<Event>, k: QueueNo)
    requires ReadWhole(es, k)
    requires |FirstOrder(Log(es, k))| <= MAX_ADVS_TABLE
    ensures DeliveredOnce(Reports(Run(es).cells, Run(es).queues[k]), Log(es, k))
  {
    DeliveryOverRuns(es, k);
    var t, log := Run(es), Log(es, k);
    var read := Reports(t.cells, t.queues[k]);
    forall i: nat | i < |read|
      ensures read[i].mac == FirstOrder(log)[i] && SameAdvertisement(read[i], LastFor(log, read[i].mac))
    {
      assert DeliversAt(t, k, log, i);
    }
  }

  ghost predicate ReadReturns(t: Table, k: QueueNo, mac: Mac)
    requires Shape(t)
  {
    exists i :: 0 <= i < |t.queues[k]| && t.cells[t.queues[k][i]].report.mac == mac
  }

  /** The bound is exact: a read returns every accepted MAC if and only if there were at most MAX_ADVS_TABLE. */
  lemma NothingLostIffWithinCapacity(es: seq<Event>, k: QueueNo)
    requires ReadWhole(es, k)
    ensures |FirstOrder(Log(es, k))| <= MAX_ADVS_TABLE
       <==> (forall mac :: mac in FirstOrder(Log(es, k)) ==> ReadReturns(Run(es), k, mac))
  {
    var t, order := Run(es), FirstOrder(Log(es, k));
    if |order| <= MAX_ADVS_TABLE {
      ReadDeliversEachMacOnce(es, k);
      forall mac | mac in order ensures ReadReturns(t, k, mac) {
        assert t.cells[t.queues[k][IndexOf(order, mac)]].report.mac == mac;
      }
    }
    if forall mac :: mac in order ==> ReadReturns(t, k, mac) {
      QueueFits(t, k);
      var macs := seq(|t.queues[k]|, i requires 0 <= i < |t.queues[k]| => t.cells[t.queues[k][i]].report.mac);
      forall mac | mac in order ensures mac in macs {
        var i :| 0 <= i < |t.queues[k]| && t.cells[t.queues[k][i]].report.mac == mac;
        assert macs[i] == mac;
      }
      CoveredSize(order, macs);
    }
  }
}

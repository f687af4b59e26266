/** Every operation of the advertisement table keeps its invariant, so every reachable table has it. */
module AdvTableInvariant {
  import opened Lists
  import opened AdvReport
  import opened AdvTableModel

  datatype Event =
    | EvPut(adv: Report)
    | EvReadQueue(k: QueueNo)
    | EvPopMqtt
    | EvHistory(q: Query)
    | EvStatistics
    | EvClear

  lemma InitHasInv()
    ensures Inv(InitTable())
  {
    var t := InitTable();
    forall c: nat | c < MAX_ADVS_TABLE ensures c in t.hist {
      assert t.hist[c] == c;
    }
  }

  /** A report goes to the cell that holds its MAC, or else to the last cell of the history list. */
  lemma TargetFacts(t: Table, adv: Report)
    requires Indexed(t)
    ensures var c := Target(t, adv); c < MAX_ADVS_TABLE && c in t.hist
    ensures Scan(t.cells, adv.mac).None? ==> Target(t, adv) == t.hist[MAX_ADVS_TABLE - 1]
    ensures Scan(t.cells, adv.mac).Some? ==> Holds(t.cells[Target(t, adv)], adv.mac)
    ensures forall d :: 0 <= d < MAX_ADVS_TABLE && d != Target(t, adv) ==> !Holds(t.cells[d], adv.mac)
  {
  }

  lemma PutCellsFacts(t: Table, adv: Report)
    requires Indexed(t)
    ensures var c, cells := Target(t, adv), PutCells(t, adv);
            && c < MAX_ADVS_TABLE
            && (forall d :: 0 <= d < MAX_ADVS_TABLE && d != c ==> cells[d] == t.cells[d])
            && (Accepts(t, adv) ==> cells[c].inHash && cells[c].inQueue == [true, true, true])
            && (!Accepts(t, adv) ==> cells[c].inHash == t.cells[c].inHash && cells[c].inQueue == t.cells[c].inQueue)
            && cells[c].report.mac == adv.mac
            && cells[c].report
               == (if Accepts(t, adv) then adv else t.cells[c].report).(samplesCounter := StoredCounter(t, adv))
  {
    TargetFacts(t, adv);
  }

  lemma PutKeepsUniqueMacs(t: Table, adv: Report)
    requires Indexed(t)
    ensures UniqueMacs(PutCells(t, adv))
  {
    TargetFacts(t, adv);
    PutCellsFacts(t, adv);
  }

  lemma MoveToFrontBelow(s: seq<nat>, c: nat, n: nat)
    requires Below(s, n) && c in s
    ensures |MoveToFront(s, c)| == |s| && Below(MoveToFront(s, c), n)
  {
    WithoutSplits(s, c);
    assert Below([c], n);
  }

  lemma EnqueueBelow(queue: seq<nat>, c: nat, n: nat)
    requires Below(queue, n) && c < n
    ensures Below(Enqueue(queue, c), n)
  {
  }

  lemma PutQueue(t: Table, adv: Report, k: QueueNo)
    requires Shape(t)
    ensures |Put(t, adv).queues| == NUM_QUEUES
    ensures Put(t, adv).queues[k] == if Accepts(t, adv) then Enqueue(t.queues[k], Target(t, adv)) else t.queues[k]
  {
  }

  lemma PutKeepsFlags(t: Table, adv: Report)
    requires Indexed(t)
    ensures |Put(t, adv).cells| == MAX_ADVS_TABLE
    ensures forall c :: 0 <= c < MAX_ADVS_TABLE ==> |Put(t, adv).cells[c].inQueue| == NUM_QUEUES
  {
    PutCellsFacts(t, adv);
  }

  lemma PutKeepsShape(t: Table, adv: Report)
    requires Indexed(t)
    ensures Shape(Put(t, adv))
  {
    var c := Target(t, adv);
    TargetFacts(t, adv);
    PutKeepsFlags(t, adv);
    MoveToFrontBelow(t.hist, c, MAX_ADVS_TABLE);
    PutQueue(t, adv, HTTP_RUUVI);
    forall k: QueueNo ensures Below(Put(t, adv).queues[k], MAX_ADVS_TABLE) {
      PutQueue(t, adv, k);
      assert Below(t.queues[k], MAX_ADVS_TABLE);
      EnqueueBelow(t.queues[k], c, MAX_ADVS_TABLE);
    }
  }

  lemma PutKeepsHistory(t: Table, adv: Report)
    requires Indexed(t) && Distinct(t.hist)
    ensures Distinct(Put(t, adv).hist) && AllIn(Put(t, adv).hist)
  {
    var c := Target(t, adv);
    MoveToFrontDistinct(t.hist, c);
    forall d: nat | d < MAX_ADVS_TABLE ensures d in MoveToFront(t.hist, c) { MoveToFrontElements(t.hist, c, d); }
  }

  lemma EnqueueIsDistinct(queue: seq<nat>, c: nat)
    requires Distinct(queue)
    ensures Distinct(Enqueue(queue, c)) && forall d: nat :: d in Enqueue(queue, c) <==> d == c || d in queue
  {
    if c !in queue { DistinctAppend(queue, c); }
  }

  lemma PutKeepsQueue(t: Table, adv: Report, k: QueueNo)
    requires Indexed(t) && QueueOk(t, k)
    requires Shape(Put(t, adv))
    ensures QueueOk(Put(t, adv), k)
  {
    PutCellsFacts(t, adv);
    PutQueue(t, adv, k);
    var c, t' := Target(t, adv), Put(t, adv);
    EnqueueIsDistinct(t.queues[k], c);
    forall d | 0 <= d < MAX_ADVS_TABLE
      ensures t'.cells[d].inQueue[k] <==> d in t'.queues[k]
      ensures d in t'.queues[k] ==> t'.cells[d].inHash
    {
      assert t.cells[d].inQueue[k] <==> d in t.queues[k];
    }
  }

  /** Moving a cell to the front of the history list while appending it to a queue keeps the queue a prefix. */
  lemma TouchKeepsPrefix(hist: seq<nat>, queue: seq<nat>, c: nat)
    requires Distinct(hist) && c in hist
    requires PendingPrefix(hist, queue)
    ensures PendingPrefix(MoveToFront(hist, c), Enqueue(queue, c))
  {
    MoveToFrontAt(hist, c);
    var k, hist', queue' := IndexOf(hist, c), MoveToFront(hist, c), Enqueue(queue, c);
    assert hist[k] == c;
    forall i | 0 <= i < |hist'| ensures hist'[i] in queue' <==> i < |queue'| {
      if i == 0 {
        assert c in queue';
      } else if i <= k {
        assert hist'[i] == hist[i - 1];
      } else {
        assert hist'[i] == hist[i];
      }
    }
  }

  lemma TouchKeepsHashedPrefix(cells: seq<Cell>, cells': seq<Cell>, hist: seq<nat>, c: nat)
    requires Distinct(hist) && c in hist
    requires |cells| == |cells'| && Below(hist, |cells|) && Below(MoveToFront(hist, c), |cells|)
    requires HashedPrefix(cells, hist)
    requires cells'[c].inHash
    requires forall d :: 0 <= d < |cells| && d != c ==> cells'[d] == cells[d]
    ensures HashedPrefix(cells', MoveToFront(hist, c))
  {
    var k, hist' := IndexOf(hist, c), MoveToFront(hist, c);
    forall i, j | 0 <= i < j < |hist'| && cells'[hist'[j]].inHash ensures cells'[hist'[i]].inHash {
      if i > 0 {
        MoveToFrontShifts(hist, c, i);
        MoveToFrontShifts(hist, c, j);
        assert cells[hist[if j <= k then j - 1 else j]].inHash;
      } else {
        assert hist'[0] == c;
      }
    }
  }

  lemma AcceptedKeepsPrefixes(t: Table, adv: Report)
    requires Inv(t) && Accepts(t, adv)
    requires Shape(Put(t, adv))
    ensures HashedPrefix(Put(t, adv).cells, Put(t, adv).hist)
    ensures PendingPrefix(Put(t, adv).hist, Put(t, adv).queues[HTTP_RUUVI])
    ensures PendingPrefix(Put(t, adv).hist, Put(t, adv).queues[HTTP_CUSTOM])
  {
    TargetFacts(t, adv);
    PutCellsFacts(t, adv);
    TouchKeepsHashedPrefix(t.cells, PutCells(t, adv), t.hist, Target(t, adv));
    TouchKeepsPrefix(t.hist, t.queues[HTTP_RUUVI], Target(t, adv));
    TouchKeepsPrefix(t.hist, t.queues[HTTP_CUSTOM], Target(t, adv));
    PutQueue(t, adv, HTTP_RUUVI);
    PutQueue(t, adv, HTTP_CUSTOM);
  }

  lemma DiscardedKeepsPrefixes(t: Table, adv: Report)
    requires Inv(t) && !Accepts(t, adv)
    requires Shape(Put(t, adv))
    ensures HashedPrefix(Put(t, adv).cells, Put(t, adv).hist)
    ensures Put(t, adv).hist == t.hist && Put(t, adv).queues == t.queues
  {
    PutCellsFacts(t, adv);
    assert forall c :: 0 <= c < MAX_ADVS_TABLE ==> PutCells(t, adv)[c].inHash == t.cells[c].inHash;
  }

  lemma PutKeepsInv(t: Table, adv: Report)
    requires Inv(t)
    ensures Inv(Put(t, adv))
  {
    PutKeepsShape(t, adv);
    PutKeepsHistory(t, adv);
    PutKeepsUniqueMacs(t, adv);
    forall k: QueueNo ensures QueueOk(Put(t, adv), k) {
      assert QueueOk(t, k);
      PutKeepsQueue(t, adv, k);
    }
    if Accepts(t, adv) {
      AcceptedKeepsPrefixes(t, adv);
    } else {
      DiscardedKeepsPrefixes(t, adv);
    }
  }

  /** The same MACs in the same order. */
  ghost predicate SameMacs(t: Table, t': Table) {
    && t'.hist == t.hist && |t.cells| == |t'.cells|
    && forall c :: 0 <= c < |t.cells| ==>
                     && t'.cells[c].inHash == t.cells[c].inHash
                     && t'.cells[c].report.mac == t.cells[c].report.mac
  }

  lemma SameMacsKeepIndex(t: Table, t': Table)
    requires Inv(t) && Shape(t') && SameMacs(t, t')
    ensures Indexed(t') && Distinct(t'.hist) && HashedPrefix(t'.cells, t'.hist)
  {
    forall c, d | 0 <= c < d < |t'.cells| && t'.cells[c].inHash && t'.cells[d].inHash
      ensures t'.cells[c].report.mac != t'.cells[d].report.mac
    {
      assert t.cells[c].inHash && t.cells[d].inHash;
    }
    forall i, j | 0 <= i < j < |t'.hist| && t'.cells[t'.hist[j]].inHash ensures t'.cells[t'.hist[i]].inHash {
      assert t.cells[t.hist[j]].inHash;
    }
  }

  /** A queue that lost the cells `gone`, and whose flags they lost. */
  lemma UnqueueKeepsQueue(t: Table, t': Table, k: QueueNo, l: QueueNo, gone: seq<nat>)
    requires Shape(t) && Shape(t') && SameMacs(t, t') && QueueOk(t, l)
    requires t'.cells == Unqueue(t.cells, k, gone)
    requires if l != k then t'.queues[l] == t.queues[l]
             else && Distinct(t'.queues[l])
                  && forall c: nat :: c in t'.queues[l] <==> c in t.queues[l] && c !in gone
    ensures QueueOk(t', l)
  {
    forall c | 0 <= c < MAX_ADVS_TABLE
      ensures t'.cells[c].inQueue[l] <==> c in t'.queues[l]
      ensures c in t'.queues[l] ==> t'.cells[c].inHash
    {
      assert t.cells[c].inQueue[l] <==> c in t.queues[l];
    }
  }

  lemma ReadQueueKeepsShape(t: Table, k: QueueNo)
    requires Shape(t)
    ensures Shape(ReadQueue(t, k)) && SameMacs(t, ReadQueue(t, k))
    ensures forall l: QueueNo :: ReadQueue(t, k).queues[l] == if l == k then [] else t.queues[l]
  {
  }

  lemma ReadQueueKeepsInv(t: Table, k: QueueNo)
    requires Inv(t)
    ensures Inv(ReadQueue(t, k))
  {
    var t' := ReadQueue(t, k);
    ReadQueueKeepsShape(t, k);
    SameMacsKeepIndex(t, t');
    forall l: QueueNo ensures QueueOk(t', l) {
      assert QueueOk(t, l);
      UnqueueKeepsQueue(t, t', k, l, t.queues[k]);
    }
  }

  lemma PopMqttKeepsShape(t: Table)
    requires Shape(t) && t.queues[MQTT] != []
    ensures Shape(PopMqtt(t)) && SameMacs(t, PopMqtt(t))
    ensures forall l: QueueNo :: PopMqtt(t).queues[l] == if l == MQTT then t.queues[MQTT][1..] else t.queues[l]
  {
    forall l: QueueNo
      ensures PopMqtt(t).queues[l] == if l == MQTT then t.queues[MQTT][1..] else t.queues[l]
      ensures Below(PopMqtt(t).queues[l], MAX_ADVS_TABLE)
    {
      assert Below(t.queues[l], MAX_ADVS_TABLE);
    }
  }

  lemma TailOfDistinct(q: seq<nat>)
    requires Distinct(q) && q != []
    ensures Distinct(q[1..]) && forall c: nat :: c in q[1..] <==> c in q && c !in [q[0]]
  {
    assert q == [q[0]] + q[1..];
  }

  lemma PopMqttKeepsInv(t: Table)
    requires Inv(t)
    ensures Inv(PopMqtt(t))
  {
    var q, t' := t.queues[MQTT], PopMqtt(t);
    if q != [] {
      PopMqttKeepsShape(t);
      SameMacsKeepIndex(t, t');
      forall l: QueueNo ensures QueueOk(t', l) {
        assert QueueOk(t, l) && QueueOk(t, MQTT);
        TailOfDistinct(q);
        UnqueueKeepsQueue(t, t', MQTT, l, [q[0]]);
      }
    }
  }

  lemma ReadStatisticsKeepsInv(t: Table)
    requires Inv(t)
    ensures Inv(ReadStatistics(t))
  {
    var t' := ReadStatistics(t);
    SameMacsKeepIndex(t, t');
    forall k: QueueNo ensures QueueOk(t', k) { assert QueueOk(t, k); }
  }

  lemma ClearKeepsInv(t: Table)
    requires Inv(t)
    ensures Inv(Clear(t))
  {
    SameMacsKeepIndex(t, Clear(t));
  }

  /** One operation. Every operation keeps the invariant, with no condition on its arguments. */
  ghost function Step(t: Table, e: Event): (t': Table)
    requires Inv(t)
    ensures Inv(t')
  {
    match e
    case EvPut(adv) => PutKeepsInv(t, adv); Put(t, adv)
    case EvReadQueue(k) => ReadQueueKeepsInv(t, k); ReadQueue(t, k)
    case EvPopMqtt => PopMqttKeepsInv(t); PopMqtt(t)
    case EvHistory(_) => t
    case EvStatistics => ReadStatisticsKeepsInv(t); ReadStatistics(t)
    case EvClear => ClearKeepsInv(t); Clear(t)
  }

  function Before(es: seq<Event>): seq<Event>
    requires es != []
  {
    es[..|es| - 1]
  }

  /** The table after a run of operations on a freshly initialised table. */
  ghost function Run(es: seq<Event>): (t: Table)
    ensures Inv(t)
  {
    if es == [] then InitHasInv(); InitTable() else Step(Run(Before(es)), Last(es))
  }

  lemma RunSnoc(es: seq<Event>, e: Event)
    ensures Run(es + [e]) == Step(Run(es), e)
  {
    assert Before(es + [e]) == es;
  }

  lemma RunPut(es: seq<Event>, adv: Report)
    ensures Run(es + [EvPut(adv)]) == Put(Run(es), adv)
  {
    RunSnoc(es, EvPut(adv));
  }

  /** Only a put changes the history list, the set of used cells or their MACs. */
  lemma QuietStepFacts(t: Table, e: Event)
    requires Inv(t) && !e.EvPut?
    ensures var t' := Step(t, e);
            && t'.hist == t.hist
            && (forall c :: 0 <= c < MAX_ADVS_TABLE ==>
                  && t'.cells[c].inHash == t.cells[c].inHash
                  && t'.cells[c].report.mac == t.cells[c].report.mac)
  {
    match e
    case EvReadQueue(k) =>
    case EvPopMqtt =>
    case EvHistory(_) =>
    case EvStatistics =>
    case EvClear =>
  }

  // ---------- consequences for every reachable table ----------

  /** No queue ever holds more than MAX_ADVS_TABLE cells, so a read never has to drop one. */
  lemma QueueFits(t: Table, k: QueueNo)
    requires Inv(t)
    ensures |t.queues[k]| <= MAX_ADVS_TABLE
  {
    assert QueueOk(t, k);
    Pigeonhole(t.queues[k], MAX_ADVS_TABLE);
  }
}

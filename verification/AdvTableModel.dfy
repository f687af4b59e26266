/** What the advertisement table means: cells, the history list (most recently accepted first) and three
    retransmission queues. There are no hash buckets here: a MAC is looked up by scanning all cells. */
module AdvTableModel {
  import opened Lists
  import opened Numbers
  import opened AdvReport

  const MAX_ADVS_TABLE: nat := 100

  /** Queues 0 and 1 feed the two HTTP targets, queue 2 feeds MQTT. */
  const NUM_QUEUES: nat := 3

  type QueueNo = k: nat | k < NUM_QUEUES

  const HTTP_RUUVI: QueueNo := 0
  const HTTP_CUSTOM: QueueNo := 1
  const MQTT: QueueNo := 2

  datatype Cell = Cell(report: Report, inHash: bool, inQueue: seq<bool>)

  datatype Table = Table(cells: seq<Cell>, hist: seq<nat>, queues: seq<seq<nat>>)

  const FREE_CELL := Cell(BLANK_REPORT, false, [false, false, false])

  function InitTable(): Table {
    Table(seq(MAX_ADVS_TABLE, _ => FREE_CELL), seq(MAX_ADVS_TABLE, i => i), [[], [], []])
  }

  predicate Holds(cell: Cell, mac: Mac) {
    cell.inHash && cell.report.mac == mac
  }

  /** A linear search over all cells, not over buckets. */
  function Scan(cells: seq<Cell>, mac: Mac): (r: Option<nat>)
    ensures r.Some? ==> r.value < |cells| && Holds(cells[r.value], mac)
    ensures r.None? ==> forall c :: 0 <= c < |cells| ==> !Holds(cells[c], mac)
  {
    if cells == [] then None
    else if Holds(Last(cells), mac) then Some(|cells| - 1)
    else Scan(cells[..|cells| - 1], mac)
  }

  /** The indexing obligations of the operations. `Inv` below is the full invariant. */
  ghost predicate Shape(t: Table) {
    && |t.cells| == |t.hist| == MAX_ADVS_TABLE
    && |t.queues| == NUM_QUEUES
    && Below(t.hist, MAX_ADVS_TABLE)
    && (forall k: QueueNo :: Below(t.queues[k], MAX_ADVS_TABLE))
    && (forall c :: 0 <= c < MAX_ADVS_TABLE ==> |t.cells[c].inQueue| == NUM_QUEUES)
  }

  ghost predicate UniqueMacs(cells: seq<Cell>) {
    forall c, d ::
      (0 <= c < d < |cells| && cells[c].inHash && cells[d].inHash) ==> cells[c].report.mac != cells[d].report.mac
  }

  /** The cells of `queue` are exactly the first |queue| cells of the history list, in some order. */
  ghost predicate PendingPrefix(hist: seq<nat>, queue: seq<nat>) {
    forall i :: 0 <= i < |hist| ==> (hist[i] in queue <==> i < |queue|)
  }

  /** Cells that were never used stand at the end of the history list. */
  ghost predicate HashedPrefix(cells: seq<Cell>, hist: seq<nat>)
    requires Below(hist, |cells|)
  {
    forall i, j :: 0 <= i < j < |hist| && cells[hist[j]].inHash ==> cells[hist[i]].inHash
  }

  ghost predicate QueueOk(t: Table, k: QueueNo)
    requires Shape(t)
  {
    && Distinct(t.queues[k])
    && (forall c :: 0 <= c < MAX_ADVS_TABLE ==> (t.cells[c].inQueue[k] <==> c in t.queues[k]))
    && (forall c :: c in t.queues[k] ==> t.cells[c].inHash)
  }

  ghost predicate AllIn(hist: seq<nat>) {
    forall c: nat :: c < MAX_ADVS_TABLE ==> c in hist
  }

  /** The part of the invariant that looking up a MAC depends on. */
  ghost predicate Indexed(t: Table) {
    Shape(t) && AllIn(t.hist) && UniqueMacs(t.cells)
  }

  ghost predicate Inv(t: Table) {
    && Indexed(t)
    && Distinct(t.hist)
    && HashedPrefix(t.cells, t.hist)
    && (forall k: QueueNo :: QueueOk(t, k))
    && PendingPrefix(t.hist, t.queues[HTTP_RUUVI])
    && PendingPrefix(t.hist, t.queues[HTTP_CUSTOM])
  }

  // ---------- put ----------

  predicate Accepts(t: Table, adv: Report) {
    var found := Scan(t.cells, adv.mac);
    found.None? || !MustBeDiscarded(adv, t.cells[found.value].report)
  }

  /** The cell a report goes to: the one that holds its MAC, or else the least recently accepted one. */
  function Target(t: Table, adv: Report): (c: nat)
    requires t.hist != []
  {
    var found := Scan(t.cells, adv.mac);
    if found.Some? then found.value else Last(t.hist)
  }

  function Enqueue(queue: seq<nat>, c: nat): seq<nat> {
    if c in queue then queue else queue + [c]
  }

  /** The counter a report gets when it is stored: its own for a new MAC, one more than before for a known one. */
  function StoredCounter(t: Table, adv: Report): nat {
    var found := Scan(t.cells, adv.mac);
    if found.None? then adv.samplesCounter
    else AsUint32(t.cells[found.value].report.samplesCounter + 1)
  }

  function PutCells(t: Table, adv: Report): (cells: seq<Cell>)
    requires Shape(t)
    ensures |cells| == |t.cells|
  {
    var c := Target(t, adv);
    var counter := StoredCounter(t, adv);
    if Accepts(t, adv) then
      t.cells[c := Cell(adv.(samplesCounter := counter), true, [true, true, true])]
    else
      t.cells[c := t.cells[c].(report := t.cells[c].report.(samplesCounter := counter))]
  }

  function Put(t: Table, adv: Report): Table
    requires Shape(t)
  {
    if Accepts(t, adv) then
      Table(PutCells(t, adv), MoveToFront(t.hist, Target(t, adv)),
            seq(NUM_QUEUES, k requires 0 <= k < NUM_QUEUES => Enqueue(t.queues[k], Target(t, adv))))
    else
      t.(cells := PutCells(t, adv))
  }

  // ---------- retransmission queues ----------

  function Reports(cells: seq<Cell>, list: seq<nat>): (r: seq<Report>)
    requires Below(list, |cells|)
    ensures |r| == |list| && forall i :: 0 <= i < |list| ==> r[i] == cells[list[i]].report
  {
    seq(|list|, i requires 0 <= i < |list| => cells[list[i]].report)
  }

  function Unqueue(cells: seq<Cell>, k: QueueNo, gone: seq<nat>): (r: seq<Cell>)
    requires forall c :: 0 <= c < |cells| ==> |cells[c].inQueue| == NUM_QUEUES
    ensures |r| == |cells|
    ensures forall c :: 0 <= c < |cells| ==>
              r[c] == if c in gone then cells[c].(inQueue := cells[c].inQueue[k := false]) else cells[c]
  {
    seq(|cells|, c requires 0 <= c < |cells| =>
      if c in gone then cells[c].(inQueue := cells[c].inQueue[k := false]) else cells[c])
  }

  function ReadQueue(t: Table, k: QueueNo): Table
    requires Shape(t)
  {
    t.(cells := Unqueue(t.cells, k, t.queues[k]), queues := t.queues[k := []])
  }

  function PopMqtt(t: Table): Table
    requires Shape(t)
  {
    if t.queues[MQTT] == [] then t
    else t.(cells := Unqueue(t.cells, MQTT, [t.queues[MQTT][0]]), queues := t.queues[MQTT := t.queues[MQTT][1..]])
  }

  // ---------- history and statistics ----------

  datatype Query = Query(curTime: int, useTimestamps: bool, filter: nat, useFilter: bool)

  /** Whether a report is recent enough, in the firmware's 32-bit arithmetic. */
  predicate Recent(q: Query, r: Report) {
    !q.useFilter
    || (if q.useTimestamps then !(AsUint32(q.curTime - r.timestamp) > q.filter)
        else !(AsInt32(r.timestamp - q.filter) <= 0))
  }

  predicate Wanted(q: Query, r: Report) {
    r.data != [] && Recent(q, r)
  }

  predicate HasTimestamp(r: Report) {
    r.timestamp != 0
  }

  /** How many reports a read that stops at the first unwanted one returns. */
  function StopAt(reports: seq<Report>, wanted: Report -> bool): (n: nat)
    ensures n <= |reports|
    ensures forall i :: 0 <= i < n ==> wanted(reports[i])
    ensures n < |reports| ==> !wanted(reports[n])
  {
    if reports == [] || !wanted(reports[0]) then 0 else 1 + StopAt(reports[1..], wanted)
  }

  function InOrder(t: Table): (r: seq<Report>)
    requires Shape(t)
  {
    Reports(t.cells, t.hist)
  }

  function History(t: Table, q: Query): seq<Report>
    requires Shape(t)
  {
    InOrder(t)[..StopAt(InOrder(t), r => Wanted(q, r))]
  }

  function NumStatistics(t: Table): (n: nat)
    requires Shape(t)
    ensures n <= |t.hist|
  {
    StopAt(InOrder(t), HasTimestamp)
  }

  function Statistics(t: Table): seq<Report>
    requires Shape(t)
  {
    InOrder(t)[..NumStatistics(t)]
  }

  function ResetCounters(cells: seq<Cell>, which: seq<nat>): (r: seq<Cell>)
    ensures |r| == |cells|
    ensures forall c :: 0 <= c < |cells| ==>
              r[c] == if c in which then cells[c].(report := cells[c].report.(samplesCounter := 0)) else cells[c]
  {
    seq(|cells|, c requires 0 <= c < |cells| =>
      if c in which then cells[c].(report := cells[c].report.(samplesCounter := 0)) else cells[c])
  }

  function ReadStatistics(t: Table): Table
    requires Shape(t)
  {
    t.(cells := ResetCounters(t.cells, t.hist[..NumStatistics(t)]))
  }

  // ---------- clear ----------

  function FreeReport(r: Report): Report {
    r.(timestamp := 0, samplesCounter := 0, data := [])
  }

  function Clear(t: Table): Table
    requires Shape(t)
  {
    t.(cells := seq(|t.cells|, c requires 0 <= c < |t.cells| =>
         Cell(FreeReport(t.cells[c].report), t.cells[c].inHash, [false, false, false])),
       queues := [[], [], []])
  }
}

/** The history and statistics reads stop at the first report they do not want. When that loses nothing. */
module AdvTableQueries {
  import opened Lists
  import opened Numbers
  import opened AdvReport
  import opened AdvTableModel
  import opened AdvTableInvariant

  // ---------- stopping early and filtering ----------

  function Filtered(rs: seq<Report>, wanted: Report -> bool): seq<Report> {
    if rs == [] then []
    else if wanted(rs[0]) then [rs[0]] + Filtered(rs[1..], wanted)
    else Filtered(rs[1..], wanted)
  }

  ghost predicate WantedFirst(rs: seq<Report>, wanted: Report -> bool) {
    forall i, j :: 0 <= i < j < |rs| && wanted(rs[j]) ==> wanted(rs[i])
  }

  lemma {:induction false} FilteredNothing(rs: seq<Report>, wanted: Report -> bool)
    ensures Filtered(rs, wanted) == [] <==> forall i :: 0 <= i < |rs| ==> !wanted(rs[i])
  {
    if rs == [] {
    } else {
      FilteredNothing(rs[1..], wanted);
      assert forall i :: 0 < i < |rs| ==> rs[i] == rs[1..][i - 1];
    }
  }

  lemma WantedFirstCons(r: Report, rest: seq<Report>, wanted: Report -> bool)
    requires wanted(r)
    ensures WantedFirst([r] + rest, wanted) <==> WantedFirst(rest, wanted)
  {
    var rs := [r] + rest;
    assert forall i :: 0 <= i < |rest| ==> rest[i] == rs[i + 1];
    if WantedFirst(rest, wanted) {
      forall i, j | 0 <= i < j < |rs| && wanted(rs[j]) ensures wanted(rs[i]) {
        if i > 0 { assert rs[i] == rest[i - 1] && rs[j] == rest[j - 1]; }
      }
    }
    if WantedFirst(rs, wanted) {
      forall i, j | 0 <= i < j < |rest| && wanted(rest[j]) ensures wanted(rest[i]) {
        assert rest[i] == rs[i + 1] && rest[j] == rs[j + 1];
      }
    }
  }

  lemma UnwantedHead(rs: seq<Report>, wanted: Report -> bool)
    requires rs != [] && !wanted(rs[0])
    ensures Filtered(rs, wanted) == [] <==> WantedFirst(rs, wanted)
  {
    FilteredNothing(rs, wanted);
    if WantedFirst(rs, wanted) {
      forall i | 0 <= i < |rs| ensures !wanted(rs[i]) {}
    }
  }

  /** Stopping at the first unwanted report gives the full filter exactly when the wanted reports come first. */
  lemma {:induction false} StopIsFilterIff(rs: seq<Report>, wanted: Report -> bool)
    ensures rs[..StopAt(rs, wanted)] == Filtered(rs, wanted) <==> WantedFirst(rs, wanted)
  {
    if rs == [] {
    } else if wanted(rs[0]) {
      var x, rest := rs[0], rs[1..];
      StopIsFilterIff(rest, wanted);
      assert rs == [x] + rest;
      assert rs[..StopAt(rs, wanted)] == [x] + rest[..StopAt(rest, wanted)];
      WantedFirstCons(x, rest, wanted);
      SameHead([x], rest[..StopAt(rest, wanted)], Filtered(rest, wanted));
    } else {
      UnwantedHead(rs, wanted);
      assert rs[..0] == [];
    }
  }

  // ---------- order in time ----------

  function NextTime(e: Event, last: int): int {
    match e
    case EvPut(adv) => adv.timestamp
    case EvClear => 0
    case _ => last
  }

  /** The timestamp of the last report put since the table was last cleared. */
  function LastTime(es: seq<Event>): int {
    if es == [] then 0 else NextTime(Last(es), LastTime(Before(es)))
  }

  predicate TimelyEvent(e: Event, last: int) {
    e.EvPut? ==> e.adv.data != [] && last <= e.adv.timestamp < INT32_LIMIT
  }

  /** What the receiver of advertisements guarantees: no empty report, and timestamps below 2^31 that do not
      decrease between two clears. */
  predicate Timely(es: seq<Event>) {
    es == [] || (Timely(Before(es)) && TimelyEvent(Last(es), LastTime(Before(es))))
  }

  ghost predicate NewerThan(a: Report, b: Report) {
    a.timestamp >= b.timestamp && (b.data != [] ==> a.data != [])
  }

  ghost predicate PlausibleTime(r: Report, last: int) {
    0 <= r.timestamp <= last < INT32_LIMIT && (r.data == [] ==> r.timestamp == 0)
  }

  /** Live reports first, newest first, and none from the future. */
  ghost predicate NewestFirst(rs: seq<Report>, last: int) {
    && 0 <= last < INT32_LIMIT
    && (forall i :: 0 <= i < |rs| ==> PlausibleTime(rs[i], last))
    && (forall i, j :: 0 <= i < j < |rs| ==> NewerThan(rs[i], rs[j]))
  }

  /** Where the reports of the history list stand after a report was accepted. */
  lemma AcceptedOrderAt(t: Table, adv: Report, i: nat)
    requires Indexed(t) && Distinct(t.hist) && Accepts(t, adv)
    requires Shape(Put(t, adv)) && i < MAX_ADVS_TABLE
    ensures i == 0 ==> InOrder(Put(t, adv))[i] == adv.(samplesCounter := StoredCounter(t, adv))
    ensures i > 0 ==> var j := if i <= IndexOf(t.hist, Target(t, adv)) then i - 1 else i;
                      InOrder(Put(t, adv))[i] == InOrder(t)[j]
  {
    TargetFacts(t, adv);
    PutCellsFacts(t, adv);
    if i > 0 { MoveToFrontShifts(t.hist, Target(t, adv), i); }
  }

  lemma AcceptedIsPlausibleAt(t: Table, adv: Report, last: int, i: nat)
    requires Indexed(t) && Distinct(t.hist) && Accepts(t, adv)
    requires Shape(Put(t, adv)) && i < MAX_ADVS_TABLE
    requires NewestFirst(InOrder(t), last) && TimelyEvent(EvPut(adv), last)
    ensures PlausibleTime(InOrder(Put(t, adv))[i], adv.timestamp)
  {
    AcceptedOrderAt(t, adv, i);
    if i > 0 {
      var j := if i <= IndexOf(t.hist, Target(t, adv)) then i - 1 else i;
      assert PlausibleTime(InOrder(t)[j], last);
    }
  }

  lemma AcceptedIsNewerAt(t: Table, adv: Report, last: int, i: nat, j: nat)
    requires Indexed(t) && Distinct(t.hist) && Accepts(t, adv)
    requires Shape(Put(t, adv)) && i < j < MAX_ADVS_TABLE
    requires NewestFirst(InOrder(t), last) && TimelyEvent(EvPut(adv), last)
    ensures NewerThan(InOrder(Put(t, adv))[i], InOrder(Put(t, adv))[j])
  {
    AcceptedOrderAt(t, adv, i);
    AcceptedOrderAt(t, adv, j);
    var k := IndexOf(t.hist, Target(t, adv));
    var j' := if j <= k then j - 1 else j;
    if i == 0 {
      assert PlausibleTime(InOrder(t)[j'], last);
    } else {
      assert NewerThan(InOrder(t)[if i <= k then i - 1 else i], InOrder(t)[j']);
    }
  }

  lemma AcceptedKeepsNewestFirst(t: Table, adv: Report, last: int)
    requires Indexed(t) && Distinct(t.hist) && Accepts(t, adv)
    requires Shape(Put(t, adv))
    requires NewestFirst(InOrder(t), last) && TimelyEvent(EvPut(adv), last)
    ensures NewestFirst(InOrder(Put(t, adv)), adv.timestamp)
  {
    var rs := InOrder(Put(t, adv));
    forall i: nat | i < |rs| ensures PlausibleTime(rs[i], adv.timestamp) {
      AcceptedIsPlausibleAt(t, adv, last, i);
    }
    forall i: nat, j: nat | i < j < |rs| ensures NewerThan(rs[i], rs[j]) {
      AcceptedIsNewerAt(t, adv, last, i, j);
    }
  }

  /** Operations that leave the order, the timestamps and the presence of data alone. */
  lemma SameTimesKeepNewestFirst(rs: seq<Report>, rs': seq<Report>, last: int, last': int)
    requires NewestFirst(rs, last) && last <= last' < INT32_LIMIT && |rs'| == |rs|
    requires forall i :: 0 <= i < |rs| ==> rs'[i].timestamp == rs[i].timestamp && rs'[i].data == rs[i].data
    ensures NewestFirst(rs', last')
  {
    forall i | 0 <= i < |rs'| ensures PlausibleTime(rs'[i], last') { assert PlausibleTime(rs[i], last); }
    forall i, j | 0 <= i < j < |rs'| ensures NewerThan(rs'[i], rs'[j]) { assert NewerThan(rs[i], rs[j]); }
  }

  lemma DiscardedKeepsTimes(t: Table, adv: Report, i: nat)
    requires Indexed(t) && !Accepts(t, adv) && i < MAX_ADVS_TABLE
    requires Shape(Put(t, adv))
    ensures InOrder(Put(t, adv))[i].timestamp == InOrder(t)[i].timestamp
    ensures InOrder(Put(t, adv))[i].data == InOrder(t)[i].data
  {
    PutCellsFacts(t, adv);
  }

  lemma PutKeepsNewestFirst(t: Table, adv: Report, last: int)
    requires Indexed(t) && Distinct(t.hist) && Shape(Put(t, adv))
    requires NewestFirst(InOrder(t), last) && TimelyEvent(EvPut(adv), last)
    ensures NewestFirst(InOrder(Put(t, adv)), adv.timestamp)
  {
    if Accepts(t, adv) {
      AcceptedKeepsNewestFirst(t, adv, last);
    } else {
      forall i: nat | i < MAX_ADVS_TABLE
        ensures InOrder(Put(t, adv))[i].timestamp == InOrder(t)[i].timestamp
        ensures InOrder(Put(t, adv))[i].data == InOrder(t)[i].data
      {
        DiscardedKeepsTimes(t, adv, i);
      }
      SameTimesKeepNewestFirst(InOrder(t), InOrder(Put(t, adv)), last, adv.timestamp);
    }
  }

  lemma ClearIsNewestFirst(t: Table)
    requires Shape(t)
    ensures NewestFirst(InOrder(Clear(t)), 0)
  {
  }

  lemma QuietStepKeepsTimes(t: Table, e: Event, i: nat)
    requires Inv(t) && !e.EvPut? && !e.EvClear? && i < MAX_ADVS_TABLE
    ensures InOrder(Step(t, e))[i].timestamp == InOrder(t)[i].timestamp
    ensures InOrder(Step(t, e))[i].data == InOrder(t)[i].data
  {
  }

  lemma StepKeepsNewestFirst(t: Table, e: Event, last: int)
    requires Inv(t) && NewestFirst(InOrder(t), last) && TimelyEvent(e, last)
    ensures NewestFirst(InOrder(Step(t, e)), NextTime(e, last))
  {
    if e.EvPut? {
      PutKeepsInv(t, e.adv);
      PutKeepsNewestFirst(t, e.adv, last);
    } else if e.EvClear? {
      ClearIsNewestFirst(t);
    } else {
      forall i: nat | i < MAX_ADVS_TABLE
        ensures InOrder(Step(t, e))[i].timestamp == InOrder(t)[i].timestamp
        ensures InOrder(Step(t, e))[i].data == InOrder(t)[i].data
      {
        QuietStepKeepsTimes(t, e, i);
      }
      SameTimesKeepNewestFirst(InOrder(t), InOrder(Step(t, e)), last, last);
    }
  }

  lemma {:induction false} NewestFirstOverRuns(es: seq<Event>)
    requires Timely(es)
    ensures NewestFirst(InOrder(Run(es)), LastTime(es))
  {
    if es == [] {
    } else {
      NewestFirstOverRuns(Before(es));
      StepKeepsNewestFirst(Run(Before(es)), Last(es), LastTime(Before(es)));
    }
  }

  // ---------- the two reads ----------

  predicate ValidQuery(q: Query) {
    q.filter < UINT32_MOD
  }

  predicate AskedNotBefore(q: Query, last: int) {
    q.useTimestamps ==> last <= q.curTime < INT32_LIMIT
  }

  /** A counter filter above 2^31 makes the 32-bit difference wrap around for large counters. */
  predicate FilterWraps(q: Query) {
    q.useFilter && !q.useTimestamps && q.filter > INT32_LIMIT
  }

  lemma RecentFirst(q: Query, a: Report, b: Report, last: int)
    requires ValidQuery(q) && !FilterWraps(q) && AskedNotBefore(q, last)
    requires PlausibleTime(a, last) && PlausibleTime(b, last) && NewerThan(a, b)
    requires Wanted(q, b)
    ensures Wanted(q, a)
  {
  }

  lemma HistoryReadIsFullFilter(es: seq<Event>, q: Query)
    requires Timely(es) && ValidQuery(q) && !FilterWraps(q) && AskedNotBefore(q, LastTime(es))
    ensures History(Run(es), q) == Filtered(InOrder(Run(es)), r => Wanted(q, r))
  {
    NewestFirstOverRuns(es);
    var rs, wanted := InOrder(Run(es)), r => Wanted(q, r);
    forall i, j | 0 <= i < j < |rs| && wanted(rs[j]) ensures wanted(rs[i]) {
      assert NewerThan(rs[i], rs[j]);
      RecentFirst(q, rs[i], rs[j], LastTime(es));
    }
    StopIsFilterIff(rs, wanted);
  }

  /** A statistics read returns every report with a timestamp, newest first. */
  lemma StatisticsReadIsFullFilter(es: seq<Event>)
    requires Timely(es)
    ensures Statistics(Run(es)) == Filtered(InOrder(Run(es)), HasTimestamp)
  {
    NewestFirstOverRuns(es);
    var rs := InOrder(Run(es));
    forall i, j | 0 <= i < j < |rs| && HasTimestamp(rs[j]) ensures HasTimestamp(rs[i]) {
      assert NewerThan(rs[i], rs[j]) && PlausibleTime(rs[j], LastTime(es));
    }
    StopIsFilterIff(rs, HasTimestamp);
  }

  ghost predicate ReadComplete(es: seq<Event>, q: Query) {
    Timely(es) && AskedNotBefore(q, LastTime(es)) ==>
      History(Run(es), q) == Filtered(InOrder(Run(es)), r => Wanted(q, r))
  }

  const MAC_A := Mac(1, 0, 0, 0, 0, 0)
  const MAC_B := Mac(2, 0, 0, 0, 0, 0)

  function Sample(mac: Mac, timestamp: int): Report {
    BLANK_REPORT.(mac := mac, timestamp := timestamp, data := [1])
  }

  lemma FirstReport(t: Table, a: Report)
    requires Inv(t) && forall c :: 0 <= c < MAX_ADVS_TABLE ==> !t.cells[c].inHash
    ensures Inv(Put(t, a)) && InOrder(Put(t, a))[0] == a
    ensures forall mac :: mac != a.mac ==> Scan(Put(t, a).cells, mac).None?
  {
    assert Scan(t.cells, a.mac).None?;
    PutKeepsInv(t, a);
    PutCellsFacts(t, a);
    AcceptedOrderAt(t, a, 0);
  }

  lemma SecondReport(t: Table, b: Report)
    requires Inv(t) && Scan(t.cells, b.mac).None?
    ensures Inv(Put(t, b)) && InOrder(Put(t, b))[0] == b && InOrder(Put(t, b))[1] == InOrder(t)[0]
  {
    PutKeepsInv(t, b);
    AcceptedOrderAt(t, b, 0);
    AcceptedOrderAt(t, b, 1);
    TargetFacts(t, b);
    MoveToFrontAt(t.hist, Target(t, b));
  }

  lemma RunOfTwoPuts(a: Report, b: Report)
    requires a.mac != b.mac
    ensures var t := Run([EvPut(a)] + [EvPut(b)]); InOrder(t)[0] == b && InOrder(t)[1] == a
  {
    InitHasInv();
    FirstReport(InitTable(), a);
    RunPut([], a);
    assert [] + [EvPut(a)] == [EvPut(a)];
    RunPut([EvPut(a)], b);
    SecondReport(Run([EvPut(a)]), b);
  }

  lemma TwoPutsAreTimely(a: Report, b: Report)
    requires a.data != [] && b.data != [] && 0 <= a.timestamp <= b.timestamp < INT32_LIMIT
    ensures Timely([EvPut(a)] + [EvPut(b)]) && LastTime([EvPut(a)] + [EvPut(b)]) == b.timestamp
  {
    assert Before([EvPut(a)]) == [] && Before([EvPut(a)] + [EvPut(b)]) == [EvPut(a)];
  }

  lemma WrappedFilter(q: Query)
    requires ValidQuery(q) && FilterWraps(q)
    ensures Wanted(q, Sample(MAC_A, 0)) && !Wanted(q, Sample(MAC_B, q.filter - INT32_LIMIT))
  {
  }

  lemma StopsTooEarly(rs: seq<Report>, wanted: Report -> bool)
    requires |rs| >= 2 && !wanted(rs[0]) && wanted(rs[1])
    ensures rs[..StopAt(rs, wanted)] != Filtered(rs, wanted)
  {
    StopIsFilterIff(rs, wanted);
  }

  lemma HistoryMissesSecond(t: Table, q: Query)
    requires Shape(t) && !Wanted(q, InOrder(t)[0]) && Wanted(q, InOrder(t)[1])
    ensures History(t, q) != Filtered(InOrder(t), r => Wanted(q, r))
  {
    StopsTooEarly(InOrder(t), r => Wanted(q, r));
  }

  lemma WrappedFilterMisses(q: Query)
    requires ValidQuery(q) && FilterWraps(q)
    ensures exists es :: !ReadComplete(es, q)
  {
    var a, b := Sample(MAC_A, 0), Sample(MAC_B, q.filter - INT32_LIMIT);
    var es := [EvPut(a)] + [EvPut(b)];
    TwoPutsAreTimely(a, b);
    WrappedFilter(q);
    RunOfTwoPuts(a, b);
    HistoryMissesSecond(Run(es), q);
    assert AskedNotBefore(q, LastTime(es));
    assert !ReadComplete(es, q);
  }

  /** The history read is complete on every table that timely reports can produce, unless the counter filter
      exceeds 2^31; then some table makes it stop too early. */
  lemma HistoryReadCompleteIff(q: Query)
    requires ValidQuery(q)
    ensures (forall es :: ReadComplete(es, q)) <==> !FilterWraps(q)
  {
    if FilterWraps(q) {
      WrappedFilterMisses(q);
    } else {
      forall es ensures ReadComplete(es, q) {
        if Timely(es) && AskedNotBefore(q, LastTime(es)) { HistoryReadIsFullFilter(es, q); }
      }
    }
  }
}

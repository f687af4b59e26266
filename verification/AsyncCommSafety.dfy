/** Who holds the lock, what gets published and what keeps relaying going, over every run. */
module AsyncCommSafety {
  import opened Lists
  import opened AsyncCommModel

  /** Relaying is suspended during an MQTT batch. */
  predicate AbortsBatch(c: Comm, e: Event) {
    e.RelayingModeChanged? && !e.on && Batching(c)
  }

  lemma ContinueKeepsInv(c: Comm, env: Env)
    requires Inv(c)
    ensures Inv(Continue(c, env))
  {
  }

  lemma StartHttpKeepsInv(c: Comm, env: Env, action: Action)
    requires Inv(c) && !c.inProgress && IsHttp(action)
    ensures Inv(StartHttp(c, env, action))
  {
  }

  lemma StartNextKeepsInv(c: Comm, env: Env)
    requires Inv(c) && !c.inProgress
    ensures Inv(StartNext(c, env))
  {
    if AdvsToRuuvi in c.needs {
      StartHttpKeepsInv(c, env, AdvsToRuuvi);
    } else if AdvsToCustom in c.needs {
      StartHttpKeepsInv(c, env, AdvsToCustom);
    } else if PostStats in c.needs {
      StartHttpKeepsInv(c, env, PostStats);
    }
  }

  lemma RoundKeepsInv(c: Comm, env: Env)
    requires Inv(c)
    ensures Inv(OnRound(c, env))
  {
    var c0 := c.(wakes := c.wakes - {Signal});
    ContinueKeepsInv(c0, env);
    var c1 := Continue(c0, env);
    if !c1.inProgress {
      StartNextKeepsInv(c1, env);
    }
  }

  /** Ownership is kept by every step except one: suspending relaying during an MQTT batch unlocks a lock that the
      task does not hold. */
  lemma OwnershipKeptIff(c: Comm, e: Event)
    requires Inv(c) && Enabled(c, e)
    ensures Inv(Step(c, e)) <==> !AbortsBatch(c, e)
  {
    if e.Round? {
      RoundKeepsInv(c, e.env);
    }
  }

  /** The run never suspends relaying during a batch, and each event can happen when its turn comes. */
  ghost predicate Calm(c: Comm, es: seq<Event>)
    requires Inv(c)
    decreases |es|
  {
    es == []
    || (Enabled(c, es[0]) && !AbortsBatch(c, es[0])
        && (OwnershipKeptIff(c, es[0]); Calm(Step(c, es[0]), es[1..])))
  }

  ghost function Run(c: Comm, es: seq<Event>): (r: Comm)
    requires Inv(c) && Calm(c, es)
    ensures Inv(r)
    decreases |es|
  {
    if es == [] then c else
      OwnershipKeptIff(c, es[0]);
      Run(Step(c, es[0]), es[1..])
  }

  /** The lock belongs to the relaying task exactly while an HTTP transfer is in progress, and each successful try-lock
      has exactly one unlock: after completion, failed start or abort. */
  lemma LockBalancedOverRuns(es: seq<Event>)
    requires Calm(Init(), es)
    ensures var c := Run(Init(), es);
            && (c.lock.HeldByTask? <==> OwnsTransfer(c))
            && c.balance == (if c.lock.HeldByTask? then 1 else 0)
  {
    assert Inv(Run(Init(), es));
  }

  /** The breaking step, from any state in which a batch is being published. */
  lemma AbortedBatchUnlocksForeignLock(c: Comm)
    requires Inv(c) && Batching(c)
    ensures var r := Step(c, RelayingModeChanged(false));
            r.balance == -1 && r.lock == c.lock && !c.lock.HeldByTask?
  {
  }

  // ---------- the reports of a batch ----------

  /** What is still to be published; an empty batch counts as one blank report. */
  function Owed(c: Comm): seq<Report> {
    if !Batching(c) || c.batch.None? || c.idx > |c.batch.value| then []
    else if c.batch.value == [] then [Blank]
    else c.batch.value[c.idx..]
  }

  /** The reports of a batch that begins now. */
  function Reports(env: Env): seq<Report> {
    if env.reports == [] then [Blank] else env.reports
  }

  /** The reports of a batch that the step begins: the round ends with one, and it is not the one it continued. */
  ghost function NewBatch(c: Comm, e: Event): seq<Report>
    requires Inv(c)
  {
    if e.Round? && Batching(OnRound(c, e.env)) && !Continue(c.(wakes := c.wakes - {Signal}), e.env).inProgress
    then Reports(e.env)
    else []
  }

  predicate DropsReports(c: Comm, e: Event) {
    AbortsBatch(c, e) || (e.Round? && Batching(c) && !e.env.publishOk)
  }

  lemma ContinueConserves(c: Comm, env: Env)
    requires Inv(c) && (Batching(c) ==> env.publishOk)
    ensures var r := Continue(c, env);
            && r.published + Owed(r) == c.published + Owed(c)
            && (Owed(r) == [] <==> !Batching(r))
  {
    if Batching(c) && c.batch.value != [] {
      assert c.batch.value[c.idx..] == [c.batch.value[c.idx]] + c.batch.value[c.idx + 1..];
      assert c.published + ([c.batch.value[c.idx]] + c.batch.value[c.idx + 1..])
          == (c.published + [c.batch.value[c.idx]]) + c.batch.value[c.idx + 1..];
    }
  }

  /** What a batch that the round has just started consists of. */
  predicate OwesReports(r: Comm, env: Env, published: seq<Report>) {
    r.published == published && Owed(r) == if Batching(r) then Reports(env) else []
  }

  lemma StartHttpPublishesNothing(c: Comm, env: Env, action: Action)
    requires !c.inProgress && IsHttp(action)
    ensures OwesReports(WithTimer(StartHttp(c, env, action)), env, c.published)
  {
  }

  lemma StartStatisticsPublishesNothing(c: Comm, env: Env)
    requires !c.inProgress
    ensures OwesReports(WithTimer(StartStatistics(c, env)), env, c.published)
  {
    if env.statEnabled {
      StartHttpPublishesNothing(c, env, PostStats);
    }
  }

  lemma StartMqttOwesReports(c: Comm, env: Env)
    requires !c.inProgress
    ensures OwesReports(WithTimer(StartMqtt(c, env)), env, c.published)
  {
    var r := StartMqtt(c, env);
    if Batching(r) {
      assert env.reports[0..] == env.reports;
    }
  }

  lemma StartNextOwesReports(c: Comm, env: Env)
    requires !c.inProgress
    ensures OwesReports(StartNext(c, env), env, c.published)
  {
    if !c.relaying {
    } else if AdvsToRuuvi in c.needs {
      StartHttpPublishesNothing(c, env, AdvsToRuuvi);
    } else if AdvsToCustom in c.needs {
      StartHttpPublishesNothing(c, env, AdvsToCustom);
    } else if PostStats in c.needs {
      StartStatisticsPublishesNothing(c, env);
    } else if AdvsToMqtt in c.needs {
      StartMqttOwesReports(c, env);
    }
  }

  /** The first half of a round. */
  ghost function Continued(c: Comm, env: Env): Comm
    requires Inv(c)
  {
    Continue(c.(wakes := c.wakes - {Signal}), env)
  }

  lemma FirstHalfConserves(c: Comm, env: Env)
    requires Inv(c) && (Batching(c) ==> env.publishOk)
    ensures var r := Continued(c, env);
            r.published + Owed(r) == c.published + Owed(c) && (!r.inProgress ==> Owed(r) == [])
  {
    ContinueConserves(c.(wakes := c.wakes - {Signal}), env);
  }

  lemma SecondHalfStarts(c: Comm, env: Env)
    requires Inv(c) && !Continued(c, env).inProgress
    ensures OwesReports(OnRound(c, env), env, Continued(c, env).published)
    ensures NewBatch(c, Round(env)) == Owed(OnRound(c, env))
  {
    StartNextOwesReports(Continued(c, env), env);
  }

  /** One round: what it takes from a batch in progress, then what a new batch adds. */
  lemma RoundConserves(c: Comm, env: Env)
    requires Inv(c) && (Batching(c) ==> env.publishOk)
    ensures var r := OnRound(c, env);
            r.published + Owed(r) == c.published + Owed(c) + NewBatch(c, Round(env))
  {
    FirstHalfConserves(c, env);
    var half := Continued(c, env);
    if half.inProgress {
      assert OnRound(c, env) == half && NewBatch(c, Round(env)) == [];
    } else {
      SecondHalfStarts(c, env);
      assert half.published == c.published + Owed(c);
    }
  }

  /** Conservation: a step only moves reports from what is owed to what is published, in order, each once, and adds
      those of a new batch behind them; unless publishing fails or the batch is aborted. */
  lemma ReportsConserved(c: Comm, e: Event)
    requires Inv(c) && Enabled(c, e) && !DropsReports(c, e)
    ensures var r := Step(c, e);
            r.published + Owed(r) == c.published + Owed(c) + NewBatch(c, e)
  {
    if e.Round? {
      RoundConserves(c, e.env);
    }
  }

  ghost predicate NothingDropped(c: Comm, es: seq<Event>)
    requires Inv(c) && Calm(c, es)
    decreases |es|
  {
    es == [] || (!DropsReports(c, es[0]) && (OwnershipKeptIff(c, es[0]); NothingDropped(Step(c, es[0]), es[1..])))
  }

  /** All batches begun in a run, put together. */
  ghost function AllBatches(c: Comm, es: seq<Event>): seq<Report>
    requires Inv(c) && Calm(c, es)
    decreases |es|
  {
    if es == [] then [] else
      OwnershipKeptIff(c, es[0]);
      NewBatch(c, es[0]) + AllBatches(Step(c, es[0]), es[1..])
  }

  lemma Chained(before: seq<Report>, begun: seq<Report>, rest: seq<Report>)
    ensures before + begun + rest == before + (begun + rest)
  {
  }

  /** Over a run in which publishing never fails, everything read from the table for MQTT is published once and in
      order, up to what the batch in progress still owes. */
  lemma {:induction false} BatchesPublishedInOrder(c: Comm, es: seq<Event>)
    requires Inv(c) && Calm(c, es) && NothingDropped(c, es)
    ensures var r := Run(c, es); r.published + Owed(r) == c.published + Owed(c) + AllBatches(c, es)
    decreases |es|
  {
    if es != [] {
      OwnershipKeptIff(c, es[0]);
      ReportsConserved(c, es[0]);
      var c1 := Step(c, es[0]);
      BatchesPublishedInOrder(c1, es[1..]);
      Chained(c.published + Owed(c), NewBatch(c, es[0]), AllBatches(c1, es[1..]));
    } else {
      assert c.published + Owed(c) + [] == c.published + Owed(c);
    }
  }

  // ---------- requests ----------

  /** A request for a transfer that is already running makes no difference to the round that completes it. */
  lemma RequestDuringTransferIsDropped(c: Comm, env: Env)
    requires OwnsTransfer(c) && env.httpDone && c.relaying
    ensures OnRound(OnRequest(c, c.action, true), env) == OnRound(c, env)
  {
    var c0 := c.(wakes := c.wakes - {Signal});
    var c1 := c.(needs := c.needs + {c.action}, wakes := c.wakes - {Signal});
    assert OnRequest(c, c.action, true).wakes - {Signal} == c.wakes - {Signal};
    assert c1.needs - {c.action} == c0.needs - {c.action};
    assert Continue(c1, env) == Continue(c0, env);
  }

  predicate Scheduled(c: Comm) {
    c.wakes != {}
  }

  /** A transfer in progress is always looked at again. */
  ghost predicate Attended(c: Comm) {
    c.inProgress ==> Scheduled(c)
  }

  predicate Needs(c: Comm) {
    AdvsToRuuvi in c.needs || AdvsToCustom in c.needs || PostStats in c.needs || AdvsToMqtt in c.needs
  }

  /** A requested transfer will be tried. */
  ghost predicate Prompt(c: Comm) {
    c.relaying && (Needs(c) || c.inProgress) ==> Scheduled(c)
  }

  lemma RoundAttends(c: Comm, env: Env)
    requires Inv(c)
    ensures Attended(OnRound(c, env)) && Prompt(OnRound(c, env))
  {
    var c1 := Continue(c.(wakes := c.wakes - {Signal}), env);
    if c1.inProgress {
      assert Timer in c1.wakes;
    }
  }

  lemma TransferIsAttended(c: Comm, e: Event)
    requires Inv(c) && Attended(c) && Enabled(c, e)
    ensures Attended(Step(c, e))
  {
    if e.Round? {
      RoundAttends(c, e.env);
    }
  }

  /** Requests that were left over when relaying was suspended are not taken up again when it is resumed; nothing else
      leaves a request unattended. */
  lemma PromptUnlessResumed(c: Comm, e: Event)
    requires Inv(c) && Attended(c) && Prompt(c) && Enabled(c, e)
    ensures Prompt(Step(c, e)) <==> !(e.RelayingModeChanged? && e.on && !c.relaying && Needs(c) && !Scheduled(c))
  {
    if e.Round? {
      RoundAttends(c, e.env);
    }
  }

  // ---------- the breaking states can be reached ----------

  lemma CalmCons(c: Comm, e: Event, es: seq<Event>)
    requires Inv(c) && Enabled(c, e) && !AbortsBatch(c, e) && Inv(Step(c, e)) && Calm(Step(c, e), es)
    ensures Calm(c, [e] + es) && Run(c, [e] + es) == Run(Step(c, e), es)
  {
    assert ([e] + es)[1..] == es;
  }

  /** A round in which everything works. */
  function GoodEnv(reports: seq<Report>): Env {
    Env(true, true, true, true, true, true, true, reports, true)
  }

  /** Suspending relaying after these steps from the start unlocks a lock that is not held. */
  lemma BatchCanBeAborted(reports: seq<Report>) returns (es: seq<Event>)
    ensures Calm(Init(), es) && Batching(Run(Init(), es))
    ensures AbortsBatch(Run(Init(), es), RelayingModeChanged(false))
    ensures Step(Run(Init(), es), RelayingModeChanged(false)).balance == -1
  {
    var c1 := Step(Init(), RelayingModeChanged(true));
    var c2 := Step(c1, Network(true));
    var c3 := Step(c2, Request(AdvsToMqtt, true));
    var round := Round(GoodEnv(reports));
    var c4 := Step(c3, round);
    assert c3.needs == {AdvsToMqtt};
    assert Batching(c4) && c4.batch == Some(reports);
    CalmCons(c3, round, []);
    CalmCons(c2, Request(AdvsToMqtt, true), [round] + []);
    CalmCons(c1, Network(true), [Request(AdvsToMqtt, true)] + ([round] + []));
    es := [RelayingModeChanged(true)] + ([Network(true)] + ([Request(AdvsToMqtt, true)] + ([round] + [])));
    CalmCons(Init(), RelayingModeChanged(true), [Network(true)] + ([Request(AdvsToMqtt, true)] + ([round] + [])));
  }

  /** Relaying suspended and resumed during a transfer, with another request left over. */
  lemma ResumingForgets(c: Comm)
    requires Inv(c) && c.wakes == {Timer} && OwnsTransfer(c) && AdvsToCustom in c.needs && c.relaying
    ensures var es := [RelayingModeChanged(false)] + [RelayingModeChanged(true)];
            Calm(c, es) && var r := Run(c, es);
            r.relaying && AdvsToCustom in r.needs && !r.inProgress && !Scheduled(r)
  {
    var c1 := Step(c, RelayingModeChanged(false));
    assert c1.wakes == {};
    assert [RelayingModeChanged(true)] + [] == [RelayingModeChanged(true)];
    CalmCons(c1, RelayingModeChanged(true), []);
    CalmCons(c, RelayingModeChanged(false), [RelayingModeChanged(true)]);
  }

  /** Two targets, one transfer started, relaying suspended and resumed: the other target's request stays where it is,
      with nothing scheduled. */
  lemma RequestCanBeForgotten() returns (es: seq<Event>)
    ensures Calm(Init(), es)
    ensures var c := Run(Init(), es); c.relaying && AdvsToCustom in c.needs && !c.inProgress && !Scheduled(c)
  {
    var c1 := Step(Init(), RelayingModeChanged(true));
    var c2 := Step(c1, Network(true));
    var cfg := CfgChanged(false, {AdvsToRuuvi, AdvsToCustom});
    var c3 := Step(c2, cfg);
    var c4 := Step(c3, TimerFires);
    assert c4.wakes == {Signal};
    var round := Round(GoodEnv([]));
    var c5 := Step(c4, round);
    assert c5.wakes == {Timer} && OwnsTransfer(c5) && AdvsToCustom in c5.needs && c5.relaying;
    ResumingForgets(c5);
    var tail := [RelayingModeChanged(false)] + [RelayingModeChanged(true)];
    CalmCons(c4, round, tail);
    CalmCons(c3, TimerFires, [round] + tail);
    CalmCons(c2, cfg, [TimerFires] + ([round] + tail));
    CalmCons(c1, Network(true), [cfg] + ([TimerFires] + ([round] + tail)));
    es := [RelayingModeChanged(true)] + ([Network(true)] + ([cfg] + ([TimerFires] + ([round] + tail))));
    CalmCons(Init(), RelayingModeChanged(true), [Network(true)] + ([cfg] + ([TimerFires] + ([round] + tail))));
  }
}

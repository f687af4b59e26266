/** When the nRF52 is marked as configured, has it been sent the settings that are cached? */
module NrfLinkFresh {
  import opened Lists
  import opened NrfLinkModel
  import opened NrfLinkSafety

  /** An acknowledgement of a SET_ALL command may still be taken for this one. */
  predicate AckOutstanding(l: Link) {
    l.lastCmd == SetAll || SigAckCfg in l.signals
  }

  predicate SentIsCached(l: Link) {
    l.sent == Some(l.cached)
  }

  ghost predicate Fresh(l: Link) {
    l.configured || AckOutstanding(l) ==> SentIsCached(l)
  }

  /** New settings are cached before the acknowledgement of the old ones has been handled. */
  predicate Overtakes(l: Link, e: Event) {
    e.NewCfg? && AckOutstanding(l) && e.cfg != l.cached
  }

  predicate SameSettings(l: Link, r: Link) {
    && r.configured == l.configured && r.cached == l.cached && r.sent == l.sent
    && (SigCfgUpdate in r.signals <==> SigCfgUpdate in l.signals)
  }

  lemma AckKeepsSettings(l: Link, cmd: Cmd, ok: bool)
    requires Inv(l)
    ensures var r := OnAckArrives(l, cmd, ok);
            && SameSettings(l, r) && (AckOutstanding(r) ==> AckOutstanding(l))
            && (SigRebooted in r.signals <==> SigRebooted in l.signals)
  {
  }

  /** Outside the handlers only new settings make a difference. */
  lemma OthersKeepSettings(l: Link, e: Event)
    requires Inv(l) && Enabled(l, e) && !e.Handle? && !e.NewCfg?
    ensures SameSettings(l, Step(l, e)) && (AckOutstanding(Step(l, e)) ==> AckOutstanding(l))
    ensures SigRebooted in Step(l, e).signals <==> SigRebooted in l.signals || e == NrfReports(SigRebooted)
  {
    if e.AckArrives? {
      AckKeepsSettings(l, e.cmd, e.ok);
    }
  }

  lemma HandlerKeepsFresh(l: Link, sig: Sig)
    requires Inv(l) && Fresh(l) && sig in l.signals
    ensures Fresh(OnSignal(l, sig))
  {
  }

  lemma FreshUnlessOvertaken(l: Link, e: Event)
    requires Inv(l) && Fresh(l) && Enabled(l, e)
    ensures Fresh(Step(l, e)) <==> !Overtakes(l, e)
  {
    if e.Handle? {
      HandlerKeepsFresh(l, e.sig);
    } else if !e.NewCfg? {
      OthersKeepSettings(l, e);
    }
  }

  ghost predicate NeverOvertakes(l: Link, es: seq<Event>)
    requires Inv(l) && Runs(l, es)
    decreases |es|
  {
    es == [] || (!Overtakes(l, es[0]) && NeverOvertakes(Step(l, es[0]), es[1..]))
  }

  /** If no new settings are cached between sending SET_ALL and handling its acknowledgement, then whenever the nRF52
      is marked as configured it was last sent the cached settings. */
  lemma {:induction false} ConfiguredMeansSent(l: Link, es: seq<Event>)
    requires Inv(l) && Fresh(l) && Runs(l, es) && NeverOvertakes(l, es)
    ensures Fresh(Run(l, es))
    ensures Run(l, es).configured ==> SentIsCached(Run(l, es))
    decreases |es|
  {
    if es != [] {
      FreshUnlessOvertaken(l, es[0]);
      ConfiguredMeansSent(Step(l, es[0]), es[1..]);
    }
  }

  lemma RunOne(l: Link, e: Event)
    requires Inv(l) && Enabled(l, e)
    ensures Runs(l, [e]) && Run(l, [e]) == Step(l, e)
  {
    assert [e][1..] == [];
  }

  lemma RunCons(l: Link, e: Event, es: seq<Event>)
    requires Inv(l) && Enabled(l, e) && Runs(Step(l, e), es)
    ensures var all := [e] + es; Runs(l, all) && Run(l, all) == Run(Step(l, e), es)
  {
    assert ([e] + es)[1..] == es;
  }

  lemma AckCfgConfigures(l: Link)
    requires Inv(l) && SigAckCfg in l.signals
    ensures var r := Step(l, Handle(SigAckCfg)); r.configured && r.sent == l.sent && r.cached == l.cached
  {
  }

  /** And otherwise it may be marked as configured although it was not sent them. */
  lemma OvertakingCanMislead(l: Link, cfg: Cfg) returns (es: seq<Event>)
    requires Inv(l) && Fresh(l) && Overtakes(l, NewCfg(cfg))
    ensures |es| >= 1 && es[0] == NewCfg(cfg) && Runs(l, es)
    ensures Run(l, es).configured && !SentIsCached(Run(l, es))
  {
    var l1 := Step(l, NewCfg(cfg));
    if SigAckCfg in l.signals {
      es := [NewCfg(cfg), Handle(SigAckCfg)];
      assert es[1..] == [Handle(SigAckCfg)];
      RunOne(l1, Handle(SigAckCfg));
      AckCfgConfigures(l1);
    } else {
      var l2 := Step(l1, AckArrives(SetAll, true));
      es := [NewCfg(cfg), AckArrives(SetAll, true), Handle(SigAckCfg)];
      assert es[1..] == [AckArrives(SetAll, true), Handle(SigAckCfg)];
      assert es[1..][1..] == [Handle(SigAckCfg)];
      RunOne(l2, Handle(SigAckCfg));
      AckCfgConfigures(l2);
    }
  }

  // ---------- an update that is lost for good ----------

  /** Weaker than `Fresh`: an update signal on its way will set things right. */
  ghost predicate SettledFresh(l: Link) {
    SigCfgUpdate !in l.signals && (l.configured || AckOutstanding(l)) ==> SentIsCached(l)
  }

  /** The update signal is used up without sending, while an acknowledgement of older settings is outstanding. */
  predicate SwallowsUpdate(l: Link, e: Event) {
    e == Handle(SigCfgUpdate) && (l.waiting || l.manualReset) && AckOutstanding(l) && !SentIsCached(l)
  }

  lemma HandlerKeepsSettled(l: Link, sig: Sig)
    requires Inv(l) && SettledFresh(l) && sig in l.signals
    ensures SettledFresh(OnSignal(l, sig)) <==> !SwallowsUpdate(l, Handle(sig))
  {
  }

  lemma SettledUnlessSwallowed(l: Link, e: Event)
    requires Inv(l) && SettledFresh(l) && Enabled(l, e)
    ensures SettledFresh(Step(l, e)) <==> !SwallowsUpdate(l, e)
  {
    if e.Handle? {
      HandlerKeepsSettled(l, e.sig);
    } else if !e.NewCfg? {
      OthersKeepSettings(l, e);
    }
  }

  /** The nRF52 is marked as configured with settings that are not the cached ones, and nothing is on its way. */
  ghost predicate Stale(l: Link) {
    && l.configured && !SentIsCached(l)
    && SigCfgUpdate !in l.signals && SigRebooted !in l.signals
  }

  predicate StartsOver(e: Event) {
    e.NewCfg? || e == NrfReports(SigRebooted)
  }

  lemma HandlerKeepsStale(l: Link, sig: Sig)
    requires Inv(l) && Stale(l) && sig in l.signals
    ensures Stale(OnSignal(l, sig))
    ensures OnSignal(l, sig).cached == l.cached && OnSignal(l, sig).sent == l.sent
  {
  }

  /** Nothing but new settings or a reboot of the nRF52 gets it the cached settings again. */
  lemma {:induction false} StaleUntilStartedOver(l: Link, es: seq<Event>)
    requires Inv(l) && Stale(l) && Runs(l, es) && forall e :: e in es ==> !StartsOver(e)
    ensures Stale(Run(l, es)) && Run(l, es).cached == l.cached && Run(l, es).sent == l.sent
    decreases |es|
  {
    if es != [] {
      assert es[0] in es;
      if es[0].Handle? {
        HandlerKeepsStale(l, es[0].sig);
      } else {
        OthersKeepSettings(l, es[0]);
      }
      StaleUntilStartedOver(Step(l, es[0]), es[1..]);
    }
  }

  lemma UpdateWaits(l: Link)
    requires Inv(l) && l.waiting && SigCfgUpdate in l.signals
    ensures Step(l, Handle(SigCfgUpdate))
         == l.(configured := false, cfgRequired := true, signals := l.signals - {SigCfgUpdate})
  {
  }

  lemma AckCfgTakesItsSignalOnly(l: Link)
    requires Inv(l) && SigAckCfg in l.signals
    ensures Step(l, Handle(SigAckCfg)).signals == l.signals - {SigAckCfg}
  {
  }

  lemma StaleAfterAck(l: Link)
    requires Inv(l) && l.lastCmd == SetAll && !SentIsCached(l)
    requires SigCfgUpdate !in l.signals && SigRebooted !in l.signals
    ensures var es := [AckArrives(SetAll, true), Handle(SigAckCfg)];
            Runs(l, es) && Stale(Run(l, es)) && Run(l, es).cached == l.cached && Run(l, es).sent == l.sent
  {
    var l1 := Step(l, AckArrives(SetAll, true));
    AckCfgConfigures(l1);
    AckCfgTakesItsSignalOnly(l1);
    RunOne(l1, Handle(SigAckCfg));
    RunCons(l, AckArrives(SetAll, true), [Handle(SigAckCfg)]);
  }

  /** From any state in which settings are being sent, with nothing else going on: cache others before the
      acknowledgement, and they are never sent. */
  lemma UpdateCanBeLostForGood(l: Link, cfg: Cfg)
    requires Inv(l) && l.waiting && l.lastCmd == SetAll && l.sent != Some(cfg) && SigRebooted !in l.signals
    ensures var es := [NewCfg(cfg), Handle(SigCfgUpdate), AckArrives(SetAll, true), Handle(SigAckCfg)];
            Runs(l, es) && Stale(Run(l, es)) && Run(l, es).cached == cfg && Run(l, es).sent == l.sent
  {
    var l1 := Step(l, NewCfg(cfg));
    var l2 := Step(l1, Handle(SigCfgUpdate));
    UpdateWaits(l1);
    StaleAfterAck(l2);
    RunCons(l1, Handle(SigCfgUpdate), [AckArrives(SetAll, true), Handle(SigAckCfg)]);
    RunCons(l, NewCfg(cfg), [Handle(SigCfgUpdate), AckArrives(SetAll, true), Handle(SigAckCfg)]);
  }

  /** Such a state is reached from the start. */
  lemma SettingsAreSent(cfg: Cfg, first: Cfg)
    ensures var es := [NewCfg(first)] + [Handle(SigCfgUpdate)];
            && Runs(InitLink(cfg, false), es)
            && var l := Run(InitLink(cfg, false), es);
               l.waiting && l.lastCmd == SetAll && l.sent == Some(first) && l.signals == {}
  {
    var l1 := Step(InitLink(cfg, false), NewCfg(first));
    assert l1.signals == {SigCfgUpdate} && !l1.waiting && !l1.manualReset;
    RunOne(l1, Handle(SigCfgUpdate));
    RunCons(InitLink(cfg, false), NewCfg(first), [Handle(SigCfgUpdate)]);
  }

  lemma {:induction false} RunAppend(l: Link, es: seq<Event>, more: seq<Event>)
    requires Inv(l) && Runs(l, es) && Runs(Run(l, es), more)
    ensures Runs(l, es + more) && Run(l, es + more) == Run(Run(l, es), more)
    decreases |es|
  {
    if es == [] {
      assert es + more == more;
    } else {
      assert (es + more)[1..] == es[1..] + more;
      RunAppend(Step(l, es[0]), es[1..], more);
    }
  }

  /** So from the start on it takes six events: two updates, and the second is never sent. */
  lemma UpdateCanBeLostFromStart(cfg: Cfg, first: Cfg, second: Cfg) returns (es: seq<Event>)
    requires first != second
    ensures |es| == 6 && Runs(InitLink(cfg, false), es)
    ensures var l := Run(InitLink(cfg, false), es); Stale(l) && l.cached == second && l.sent == Some(first)
  {
    var sending := [NewCfg(first)] + [Handle(SigCfgUpdate)];
    var rest := [NewCfg(second), Handle(SigCfgUpdate), AckArrives(SetAll, true), Handle(SigAckCfg)];
    SettingsAreSent(cfg, first);
    UpdateCanBeLostForGood(Run(InitLink(cfg, false), sending), second);
    RunAppend(InitLink(cfg, false), sending, rest);
    es := sending + rest;
  }
}

/** What holds in every run of the link: no command waits without an acknowledgement or a timeout to come, and a
    silent nRF52 is reset at every tenth timeout. */
module NrfLinkSafety {
  import opened NrfLinkModel

  predicate Pending(l: Link) {
    l.cfgRequired || l.led != LED_INVALID
  }

  /** Nothing that has to be sent is forgotten: an acknowledgement, or its timeout, is on its way. */
  ghost predicate NoStall(l: Link) {
    Pending(l) ==> l.waiting
  }

  /** The step reaches the sending of the configuration. */
  predicate SendsCfg(l: Link, e: Event) {
    && e.Handle?
    && match e.sig
       case SigCfgUpdate => !l.waiting
       case SigAckLed => l.cfgRequired
       case SigAckTimeout => l.cfgRequired && l.timeouts + 1 < NO_ACK_MAX_CNT
       case _ => false
  }

  lemma HandlerStallsOnlyIf(l: Link, sig: Sig)
    requires Inv(l) && NoStall(l) && sig in l.signals
    ensures NoStall(OnSignal(l, sig)) <==> !(l.manualReset && SendsCfg(l, Handle(sig)))
  {
  }

  /** The one way to lose track of pending work: a configuration that manual reset mode keeps from being sent. */
  lemma StallsOnlyByManualReset(l: Link, e: Event)
    requires Inv(l) && NoStall(l) && Enabled(l, e)
    ensures NoStall(Step(l, e)) <==> !(l.manualReset && SendsCfg(l, e))
  {
    if e.Handle? {
      HandlerStallsOnlyIf(l, e.sig);
    }
  }

  /** Whether every event of the run can happen when its turn comes. */
  ghost predicate Runs(l: Link, es: seq<Event>)
    requires Inv(l)
    decreases |es|
  {
    es == [] || (Enabled(l, es[0]) && Runs(Step(l, es[0]), es[1..]))
  }

  ghost function Run(l: Link, es: seq<Event>): (r: Link)
    requires Inv(l) && Runs(l, es)
    ensures Inv(r)
    decreases |es|
  {
    if es == [] then l else Run(Step(l, es[0]), es[1..])
  }

  /** An acknowledgement is awaited only while something is pending. */
  ghost predicate Purposeful(l: Link) {
    l.waiting ==> Pending(l)
  }

  /** The one way to wait for nothing: taking back the LED value that is being sent. */
  predicate TakesBackLed(l: Link, e: Event) {
    e == SendLed(LED_INVALID) && !l.cfgRequired
  }

  lemma HandlerKeepsPurpose(l: Link, sig: Sig)
    requires Inv(l) && Purposeful(l)
    ensures Purposeful(OnSignal(l, sig))
  {
  }

  lemma PurposefulUnlessTakenBack(l: Link, e: Event)
    requires Inv(l) && Purposeful(l) && Enabled(l, e)
    ensures Purposeful(Step(l, e)) <==> !TakesBackLed(l, e)
  {
    if e.Handle? {
      HandlerKeepsPurpose(l, e.sig);
    }
  }

  lemma {:induction false} PurposeKept(l: Link, es: seq<Event>)
    requires Inv(l) && Purposeful(l) && Runs(l, es) && SendLed(LED_INVALID) !in es
    ensures Purposeful(Run(l, es))
    decreases |es|
  {
    if es == [] {
    } else {
      assert es[0] in es;
      PurposefulUnlessTakenBack(l, es[0]);
      PurposeKept(Step(l, es[0]), es[1..]);
    }
  }

  lemma TimeoutKeepsMode(l: Link)
    requires Inv(l.(waiting := false))
    ensures OnAckTimeout(l).manualReset == l.manualReset
  {
  }

  lemma HandlerKeepsMode(l: Link, sig: Sig)
    requires Inv(l)
    ensures OnSignal(l, sig).manualReset == l.manualReset
  {
    if sig == SigAckTimeout {
      TimeoutKeepsMode(Taken(l, sig));
    }
  }

  lemma ModeChangesOnlyByCommand(l: Link, e: Event)
    requires Inv(l) && Enabled(l, e)
    ensures Step(l, e).manualReset == if e.SetManualReset? then e.on else l.manualReset
  {
    if e.Handle? {
      HandlerKeepsMode(l, e.sig);
    }
  }

  lemma {:induction false} NoStallKept(l: Link, es: seq<Event>)
    requires Inv(l) && NoStall(l) && !l.manualReset && Runs(l, es) && SetManualReset(true) !in es
    ensures NoStall(Run(l, es)) && !Run(l, es).manualReset
    decreases |es|
  {
    if es == [] {
    } else {
      assert es[0] in es;
      StallsOnlyByManualReset(l, es[0]);
      ModeChangesOnlyByCommand(l, es[0]);
      NoStallKept(Step(l, es[0]), es[1..]);
    }
  }

  /** With manual reset mode off, in every interleaving: pending work means that an acknowledgement is awaited, and
      while it is awaited the timer runs or its signal is on the way. If no LED value is taken back, nothing is awaited
      without pending work. */
  lemma {:induction false} PendingWorkIsAlwaysAwaited(cfg: Cfg, es: seq<Event>)
    requires Runs(InitLink(cfg, false), es) && SetManualReset(true) !in es
    ensures var l := Run(InitLink(cfg, false), es);
            && (Pending(l) ==> l.waiting)
            && (l.waiting ==> AckTimer in l.timers || SigAckTimeout in l.signals)
            && (l.cfgRequired ==> !l.configured)
            && (SendLed(LED_INVALID) !in es ==> (Pending(l) <==> l.waiting))
  {
    NoStallKept(InitLink(cfg, false), es);
    if SendLed(LED_INVALID) !in es {
      PurposeKept(InitLink(cfg, false), es);
    }
  }

  // ---------- a silent nRF52 ----------

  predicate IsAck(e: Event) {
    e == Handle(SigAckLed) || e == Handle(SigAckCfg)
  }

  function TimeoutsHandled(es: seq<Event>): nat {
    if es == [] then 0 else (if es[0] == Handle(SigAckTimeout) then 1 else 0) + TimeoutsHandled(es[1..])
  }

  predicate GivesUp(l: Link, e: Event) {
    e == Handle(SigAckTimeout) && l.timeouts == NO_ACK_MAX_CNT - 1
  }

  /** The resets in a run that are due to timeouts. */
  ghost function Resets(l: Link, es: seq<Event>): nat
    requires Inv(l) && Runs(l, es)
    decreases |es|
  {
    if es == [] then 0 else (if GivesUp(l, es[0]) then 1 else 0) + Resets(Step(l, es[0]), es[1..])
  }

  lemma GivingUpResets(l: Link, e: Event)
    requires Inv(l) && Enabled(l, e) && GivesUp(l, e)
    ensures var r := Step(l, e); r.inHwReset && ResetTimer in r.timers && !Pending(r) && !r.waiting && r.timeouts == 0
  {
  }

  lemma HandlerCounts(l: Link, sig: Sig)
    requires Inv(l) && sig != SigAckLed && sig != SigAckCfg
    ensures OnSignal(l, sig).timeouts
         == if !sig.SigAckTimeout? then l.timeouts
            else if l.timeouts == NO_ACK_MAX_CNT - 1 then 0 else l.timeouts + 1
  {
  }

  lemma StepCounts(l: Link, e: Event)
    requires Inv(l) && Enabled(l, e) && !IsAck(e)
    ensures Step(l, e).timeouts
         == if e != Handle(SigAckTimeout) then l.timeouts else if GivesUp(l, e) then 0 else l.timeouts + 1
  {
    if e.Handle? {
      HandlerCounts(l, e.sig);
    }
  }

  /** Without acknowledgements every tenth timeout resets the nRF52, whatever else happens in between. */
  lemma {:induction false} SilenceResetsEveryTenthTimeout(l: Link, es: seq<Event>)
    requires Inv(l) && Runs(l, es) && forall e :: e in es ==> !IsAck(e)
    ensures Resets(l, es) == (l.timeouts + TimeoutsHandled(es)) / NO_ACK_MAX_CNT
    ensures Run(l, es).timeouts == (l.timeouts + TimeoutsHandled(es)) % NO_ACK_MAX_CNT
    decreases |es|
  {
    if es != [] {
      assert es[0] in es;
      StepCounts(l, es[0]);
      SilenceResetsEveryTenthTimeout(Step(l, es[0]), es[1..]);
    }
  }
}

/** Is every LED value sent before it is given up? */
module NrfLinkLed {
  import opened Lists
  import opened NrfLinkModel
  import opened NrfLinkSafety
  import opened NrfLinkFresh

  /** An acknowledgement of an LED command may still be taken for the value that is pending. */
  predicate LedAckOutstanding(l: Link) {
    l.lastCmd == LedCtrl || SigAckLed in l.signals
  }

  /** A value is pending that is not the one sent last. */
  predicate Unsent(l: Link) {
    l.led != LED_INVALID && l.sentLed != Some(l.led)
  }

  ghost predicate LedFresh(l: Link) {
    LedAckOutstanding(l) ==> !Unsent(l)
  }

  /** A value is set before the acknowledgement of another one has been handled. */
  predicate OvertakesLed(l: Link, e: Event) {
    e.SendLed? && e.ms != LED_INVALID && l.waiting && LedAckOutstanding(l) && l.sentLed != Some(e.ms)
  }

  lemma HandlerKeepsLedFresh(l: Link, sig: Sig)
    requires Inv(l) && LedFresh(l) && sig in l.signals
    ensures LedFresh(OnSignal(l, sig))
  {
  }

  lemma AckKeepsLed(l: Link, cmd: Cmd, ok: bool)
    requires Inv(l)
    ensures var r := OnAckArrives(l, cmd, ok);
            r.led == l.led && r.sentLed == l.sentLed && (LedAckOutstanding(r) ==> LedAckOutstanding(l))
  {
  }

  /** Outside the handlers only a new LED value makes a difference. */
  lemma OthersKeepLed(l: Link, e: Event)
    requires Inv(l) && Enabled(l, e) && !e.Handle? && !e.SendLed?
    ensures Step(l, e).led == l.led && Step(l, e).sentLed == l.sentLed
    ensures LedAckOutstanding(Step(l, e)) ==> LedAckOutstanding(l)
  {
    if e.AckArrives? {
      AckKeepsLed(l, e.cmd, e.ok);
    }
  }

  /** The exact step that breaks freshness. */
  lemma LedFreshUnlessOvertaken(l: Link, e: Event)
    requires Inv(l) && LedFresh(l) && Enabled(l, e)
    ensures LedFresh(Step(l, e)) <==> !OvertakesLed(l, e)
  {
    if e.Handle? {
      HandlerKeepsLedFresh(l, e.sig);
    } else if !e.SendLed? {
      OthersKeepLed(l, e);
    }
  }

  ghost predicate NeverOvertakesLed(l: Link, es: seq<Event>)
    requires Inv(l) && Runs(l, es)
    decreases |es|
  {
    es == [] || (!OvertakesLed(l, es[0]) && NeverOvertakesLed(Step(l, es[0]), es[1..]))
  }

  /** In runs without such a step, the value that an acknowledgement completes is always the one that was sent. */
  lemma {:induction false} AcknowledgedLedWasSent(l: Link, es: seq<Event>)
    requires Inv(l) && LedFresh(l) && Runs(l, es) && NeverOvertakesLed(l, es)
    ensures LedFresh(Run(l, es))
    ensures var r := Run(l, es); Enabled(r, Handle(SigAckLed)) && r.led != LED_INVALID ==> r.sentLed == Some(r.led)
    decreases |es|
  {
    if es == [] {
    } else {
      LedFreshUnlessOvertaken(l, es[0]);
      AcknowledgedLedWasSent(Step(l, es[0]), es[1..]);
    }
  }

  lemma AckLedGivesUp(l: Link)
    requires Inv(l) && SigAckLed in l.signals
    ensures var r := Step(l, Handle(SigAckLed)); r.led == LED_INVALID && r.sentLed == l.sentLed
  {
  }

  /** And after any such step the acknowledgement of the other value can complete this one, which is never sent. */
  lemma OvertakingLosesLed(l: Link, ms: nat) returns (es: seq<Event>)
    requires Inv(l) && OvertakesLed(l, SendLed(ms))
    ensures |es| >= 1 && es[0] == SendLed(ms) && Runs(l, es)
    ensures Run(l, es).led == LED_INVALID && Run(l, es).sentLed == l.sentLed != Some(ms)
  {
    var l1 := Step(l, SendLed(ms));
    if SigAckLed in l.signals {
      AckLedGivesUp(l1);
      RunOne(l1, Handle(SigAckLed));
      es := [SendLed(ms)] + [Handle(SigAckLed)];
      RunCons(l, SendLed(ms), [Handle(SigAckLed)]);
    } else {
      var l2 := Step(l1, AckArrives(LedCtrl, true));
      AckLedGivesUp(l2);
      RunOne(l2, Handle(SigAckLed));
      RunCons(l1, AckArrives(LedCtrl, true), [Handle(SigAckLed)]);
      var rest := [AckArrives(LedCtrl, true)] + [Handle(SigAckLed)];
      es := [SendLed(ms)] + rest;
      RunCons(l, SendLed(ms), rest);
    }
  }

  /** From the start: of two LED values the second is never sent. */
  lemma LedCanBeLostFromStart(cfg: Cfg, first: nat, second: nat) returns (es: seq<Event>)
    requires first != second && first != LED_INVALID && second != LED_INVALID
    ensures |es| >= 2 && es[0] == SendLed(first) && es[1] == SendLed(second)
    ensures Runs(InitLink(cfg, false), es)
    ensures var l := Run(InitLink(cfg, false), es); l.led == LED_INVALID && l.sentLed == Some(first)
  {
    var l := Step(InitLink(cfg, false), SendLed(first));
    assert l.waiting && l.lastCmd == LedCtrl && l.sentLed == Some(first);
    var rest := OvertakingLosesLed(l, second);
    RunCons(InitLink(cfg, false), SendLed(first), rest);
    es := [SendLed(first)] + rest;
  }

  predicate DropsLed(sig: Sig) {
    sig.SigAckLed? || sig.SigRebooted? || sig.SigCfgReqTimeout?
  }

  lemma HandlerDropsLed(l: Link, sig: Sig)
    requires Inv(l) && DropsLed(sig)
    ensures OnSignal(l, sig).led == LED_INVALID
  {
  }

  lemma AckCfgKeepsLed(l: Link)
    requires Inv(l)
    ensures OnAckCfg(l).led == l.led
  {
  }

  lemma HandlerKeepsLed(l: Link, sig: Sig)
    requires Inv(l) && !sig.SigAckTimeout? && !DropsLed(sig)
    ensures OnSignal(l, sig).led == l.led
  {
    if sig == SigAckCfg {
      AckCfgKeepsLed(Taken(l, sig));
    }
  }

  lemma TimeoutGivesUpIff(l: Link)
    requires Inv(l) && l.led != LED_INVALID
    ensures OnSignal(l, SigAckTimeout).led == LED_INVALID <==> l.timeouts == NO_ACK_MAX_CNT - 1
  {
  }

  /** All the ways in which a pending LED value disappears: completed, taken back, or dropped by a reset or a reboot. */
  lemma PendingLedGivenUpIff(l: Link, e: Event)
    requires Inv(l) && l.led != LED_INVALID && Enabled(l, e)
    ensures Step(l, e).led == LED_INVALID <==>
              || (e.Handle? && DropsLed(e.sig))
              || e == SendLed(LED_INVALID) || GivesUp(l, e)
  {
    if e == Handle(SigAckTimeout) {
      TimeoutGivesUpIff(l);
    } else if e.Handle? && DropsLed(e.sig) {
      HandlerDropsLed(l, e.sig);
    } else if e.Handle? {
      HandlerKeepsLed(l, e.sig);
    } else if !e.SendLed? {
      OthersKeepLed(l, e);
    }
  }
}

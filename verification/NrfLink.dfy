/** The link as the firmware keeps it: flags, a counter and timers that the signal handlers change in place. */
module NrfLink {
  import opened Lists
  import opened NrfLinkModel
  import opened NrfLinkSafety
  import opened NrfLinkFresh
  import opened NrfLinkLed

  class NrfLink {
    var cachedCfg: Cfg
    var flagCfgReady: bool
    var flagConfigured: bool
    var flagInHwReset: bool
    var lastCmd: Cmd
    var isWaitingAck: bool
    var flagCfgRequired: bool
    var ackTimeoutCnt: nat
    var ledIntervalMs: nat
    var activeTimers: set<Timer>
    var pendingSignals: set<Sig>
    var manualResetMode: bool
    var sentCfg: Option<Cfg>
    var sentLedMs: Option<nat>

    ghost function View(): Link
      reads this
    {
      Link(cachedCfg, flagCfgReady, flagConfigured, flagInHwReset, lastCmd, isWaitingAck, flagCfgRequired,
           ackTimeoutCnt, ledIntervalMs, activeTimers, pendingSignals, manualResetMode, sentCfg, sentLedMs)
    }

    constructor (cfg: Cfg, manualReset: bool)
      ensures View() == InitLink(cfg, manualReset) && Inv(View())
    {
      cachedCfg, flagCfgReady, flagConfigured, flagInHwReset := cfg, false, false, false;
      lastCmd, isWaitingAck, flagCfgRequired := NoCmd, false, false;
      ackTimeoutCnt, ledIntervalMs := 0, LED_INVALID;
      activeTimers, pendingSignals, manualResetMode := {}, {}, manualReset;
      sentCfg, sentLedMs := None, None;
      new;
      HwReset();
    }

    method SendSignal(sig: Sig)
      modifies this`pendingSignals
      ensures View() == Raised(old(View()), sig)
    {
      pendingSignals := pendingSignals + {sig};
    }

    method SetWaiting(cmd: Cmd)
      modifies this
      ensures View() == SetWaitingAck(old(View()), cmd)
    {
      activeTimers := activeTimers + {AckTimer};
      lastCmd := cmd;
      isWaitingAck := true;
    }

    method SendLedCtrlInternal()
      requires !isWaitingAck
      requires ledIntervalMs != LED_INVALID
      modifies this
      ensures View() == SendLedInternal(old(View()))
    {
      SetWaiting(LedCtrl);
      sentLedMs := Some(ledIntervalMs);
    }

    method SendCmdCfgInternal()
      requires !isWaitingAck
      requires !flagConfigured
      requires flagCfgRequired
      modifies this
      ensures View() == SendCfgInternal(old(View()))
    {
      if manualResetMode {
        return;
      }
      var cfg := cachedCfg;
      SetWaiting(SetAll);
      sentCfg := Some(cfg);
    }

    method HwReset()
      modifies this
      ensures View() == Reset(old(View()))
    {
      flagInHwReset := true;
      ledIntervalMs := LED_INVALID;
      flagCfgRequired := false;
      isWaitingAck := false;
      activeTimers := activeTimers + {ResetTimer};
    }

    method UpdateCfg(cfg: Cfg)
      requires Inv(View())
      modifies this
      ensures View() == OnNewCfg(old(View()), cfg) && Inv(View())
    {
      cachedCfg := cfg;
      flagConfigured := false;
      flagInHwReset := false;
      flagCfgReady := true;
      SendSignal(SigCfgUpdate);
    }

    method SendLedCtrl(ms: nat)
      requires Inv(View()) && (ms == LED_INVALID ==> isWaitingAck)
      modifies this
      ensures View() == OnSendLed(old(View()), ms) && Inv(View())
    {
      ledIntervalMs := ms;
      if !isWaitingAck {
        SendLedCtrlInternal();
      }
    }

    method OnSigRebooted()
      requires Inv(View())
      modifies this
      ensures View() == OnRebooted(old(View())) && Inv(View())
    {
      ledIntervalMs := LED_INVALID;
      flagCfgRequired := false;
      isWaitingAck := false;
      if !manualResetMode && flagCfgReady {
        SendSignal(SigCfgUpdate);
      }
      activeTimers := activeTimers - {CfgReqTimer};
    }

    method OnSigCfgUpdate()
      requires Inv(View())
      modifies this
      ensures View() == OnCfgUpdate(old(View())) && Inv(View())
    {
      flagConfigured := false;
      flagCfgRequired := true;
      if !isWaitingAck {
        SendCmdCfgInternal();
      }
    }

    method OnSigHwResetOff()
      requires Inv(View())
      modifies this
      ensures View() == OnHwResetOff(old(View())) && Inv(View())
    {
      flagInHwReset := false;
      activeTimers := activeTimers + {CfgReqTimer};
    }

    method OnAsyncAck(cmd: Cmd, ok: bool)
      requires Inv(View())
      modifies this
      ensures View() == OnAckArrives(old(View()), cmd, ok) && Inv(View())
    {
      var last := lastCmd;
      lastCmd := NoCmd;
      if last != cmd || !ok {
        return;
      }
      match cmd
      case LedCtrl => SendSignal(SigAckLed);
      case SetAll => SendSignal(SigAckCfg);
      case NoCmd =>
    }

    method OnSyncAckLedCtrl()
      requires Inv(View())
      modifies this
      ensures View() == OnAckLed(old(View())) && Inv(View())
    {
      ledIntervalMs := LED_INVALID;
      ackTimeoutCnt := 0;
      activeTimers := activeTimers - {AckTimer};
      isWaitingAck := false;
      if flagCfgRequired {
        SendCmdCfgInternal();
      }
    }

    method OnSyncAckCfg()
      requires Inv(View())
      modifies this
      ensures View() == OnAckCfg(old(View())) && Inv(View())
    {
      ackTimeoutCnt := 0;
      activeTimers := activeTimers - {AckTimer};
      isWaitingAck := false;
      flagCfgRequired := false;
      flagConfigured := true;
      if ledIntervalMs != LED_INVALID {
        SendLedCtrlInternal();
      }
    }

    method OnSyncAckTimeout()
      requires Inv(View().(waiting := false))
      modifies this
      ensures View() == OnAckTimeout(old(View())) && Inv(View())
    {
      isWaitingAck := false;
      ackTimeoutCnt := ackTimeoutCnt + 1;
      if ackTimeoutCnt >= NO_ACK_MAX_CNT {
        ackTimeoutCnt := 0;
        HwReset();
      } else if flagCfgRequired {
        SendCmdCfgInternal();
      } else if ledIntervalMs != LED_INVALID {
        SendLedCtrlInternal();
      }
    }

    /** Takes a pending signal and dispatches it. */
    method HandleSignal(sig: Sig)
      requires Inv(View())
      modifies this
      ensures View() == OnSignal(old(View()), sig) && Inv(View())
    {
      pendingSignals := pendingSignals - {sig};
      assert View() == Taken(old(View()), sig);
      match sig
      case SigAckTimeout => OnSyncAckTimeout();
      case SigHwResetOff => OnSigHwResetOff();
      case SigCfgReqTimeout => HwReset();
      case SigCfgUpdate => OnSigCfgUpdate();
      case SigRebooted => OnSigRebooted();
      case SigConfigured =>
      case SigAckLed => OnSyncAckLedCtrl();
      case SigAckCfg => OnSyncAckCfg();
    }

    method TimerFires(timer: Timer)
      requires Inv(View())
      modifies this
      ensures View() == OnFire(old(View()), timer) && Inv(View())
    {
      activeTimers := activeTimers - {timer};
      SendSignal(SignalOf(timer));
    }

    method HandleEvent(e: Event)
      requires Inv(View()) && Enabled(View(), e)
      modifies this
      ensures View() == Step(old(View()), e) && Inv(View())
    {
      match e
      case NewCfg(cfg) => UpdateCfg(cfg);
      case SendLed(ms) => SendLedCtrl(ms);
      case Handle(sig) => HandleSignal(sig);
      case Fire(timer) => TimerFires(timer);
      case AckArrives(cmd, ok) => OnAsyncAck(cmd, ok);
      case NrfReports(sig) => SendSignal(sig);
      case SetManualReset(on) => manualResetMode := on;
    }

    /** Any sequence of events in place. Pending work stays awaited while manual reset mode is off. If nothing overtakes
        an outstanding acknowledgement, a link marked as configured was sent its settings, and a value that an
        acknowledgement is about to complete was sent. */
    method HandleEvents(es: seq<Event>)
      requires Inv(View()) && Runs(View(), es)
      modifies this
      ensures Inv(View()) && View() == Run(old(View()), es)
      ensures NoStall(old(View())) && !old(View()).manualReset && SetManualReset(true) !in es ==>
                (flagCfgRequired || ledIntervalMs != LED_INVALID ==> isWaitingAck)
      ensures Fresh(old(View())) && NeverOvertakes(old(View()), es) ==>
                (flagConfigured ==> sentCfg == Some(cachedCfg))
      ensures LedFresh(old(View())) && NeverOvertakesLed(old(View()), es) ==>
                (SigAckLed in pendingSignals && ledIntervalMs != LED_INVALID ==> sentLedMs == Some(ledIntervalMs))
    {
      ghost var before := View();
      for i := 0 to |es|
        invariant Inv(View()) && Runs(View(), es[i..]) && Run(View(), es[i..]) == Run(before, es)
      {
        HandleEvent(es[i]);
        assert es[i..][1..] == es[i + 1..];
      }
      if NoStall(before) && !before.manualReset && SetManualReset(true) !in es {
        NoStallKept(before, es);
      }
      if Fresh(before) && NeverOvertakes(before, es) {
        ConfiguredMeansSent(before, es);
      }
      if LedFresh(before) && NeverOvertakesLed(before, es) {
        AcknowledgedLedWasSent(before, es);
      }
    }
  }
}

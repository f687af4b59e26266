/** The command link to the nRF52: one outstanding command, an ACK timer, retries, reset, and the configuration and
    LED commands that wait for their turn. Every signal handler is a step, and so is everything outside: timers,
    acknowledgements, reboots and new settings may come at any time. */
module NrfLinkModel {
  import opened Lists

  const NO_ACK_MAX_CNT: nat := 10
  const LED_INVALID: nat := 0xFFFF

  /** Scan and filter settings, as sent to the nRF52. */
  datatype Cfg = Cfg(companyId: nat, useFiltering: bool, codedPhy: bool, phy1M: bool, phy2M: bool,
                     channel37: bool, channel38: bool, channel39: bool)

  datatype Cmd = NoCmd | LedCtrl | SetAll

  datatype Sig = SigAckTimeout | SigHwResetOff | SigCfgReqTimeout | SigCfgUpdate | SigRebooted | SigConfigured
               | SigAckLed | SigAckCfg

  datatype Timer = AckTimer | ResetTimer | CfgReqTimer

  /** `signals` has one bit per signal: a signal sent twice before it is handled is handled once.
      `sent` and `sentLed` are the configuration and the LED value handed to the UART last. */
  datatype Link = Link(cached: Cfg, cfgReady: bool, configured: bool, inHwReset: bool,
                       lastCmd: Cmd, waiting: bool, cfgRequired: bool, timeouts: nat, led: nat,
                       timers: set<Timer>, signals: set<Sig>, manualReset: bool, sent: Option<Cfg>,
                       sentLed: Option<nat>)

  datatype Event =
    | NewCfg(cfg: Cfg)            // settings cached, signal sent
    | SendLed(ms: nat)
    | Handle(sig: Sig)            // a pending signal is taken and handled
    | Fire(timer: Timer)
    | AckArrives(cmd: Cmd, ok: bool)
    | NrfReports(sig: Sig)        // the nRF52 announces a reboot, or that it has been configured
    | SetManualReset(on: bool)

  /** Holds whatever the manual reset mode does. Together with the preconditions of `SendCfgInternal` and
      `SendLedInternal` it means that no assertion on sending can fail. */
  ghost predicate Inv(l: Link) {
    && (l.waiting ==> AckTimer in l.timers || SigAckTimeout in l.signals)
    && (l.cfgRequired ==> !l.configured)
    && l.timeouts < NO_ACK_MAX_CNT
  }

  // ---------- sending ----------

  function SetWaitingAck(l: Link, cmd: Cmd): Link {
    l.(timers := l.timers + {AckTimer}, lastCmd := cmd, waiting := true)
  }

  /** The preconditions are the firmware's assertions. */
  function SendLedInternal(l: Link): Link
    requires !l.waiting
    requires l.led != LED_INVALID
  {
    SetWaitingAck(l, LedCtrl).(sentLed := Some(l.led))
  }

  function SendCfgInternal(l: Link): Link
    requires !l.waiting
    requires !l.configured
    requires l.cfgRequired
  {
    if l.manualReset then l else SetWaitingAck(l, SetAll).(sent := Some(l.cached))
  }

  function Raised(l: Link, sig: Sig): Link {
    l.(signals := l.signals + {sig})
  }

  function Reset(l: Link): (r: Link)
    ensures Inv(l) ==> Inv(r)
  {
    l.(inHwReset := true, led := LED_INVALID, cfgRequired := false, waiting := false,
       timers := l.timers + {ResetTimer})
  }

  function InitLink(cfg: Cfg, manualReset: bool): (r: Link)
    ensures Inv(r)
  {
    Reset(Link(cfg, false, false, false, NoCmd, false, false, 0, LED_INVALID, {}, {}, manualReset, None, None))
  }

  // ---------- handlers ----------

  function OnNewCfg(l: Link, cfg: Cfg): (r: Link)
    requires Inv(l)
    ensures Inv(r)
  {
    Raised(l.(cached := cfg, configured := false, inHwReset := false, cfgReady := true), SigCfgUpdate)
  }

  /** The value that stands for none may only be set while an acknowledgement is awaited: the firmware asserts that it
      is never sent. */
  function OnSendLed(l: Link, ms: nat): (r: Link)
    requires Inv(l) && (ms == LED_INVALID ==> l.waiting)
    ensures Inv(r)
  {
    var l1 := l.(led := ms);
    if !l1.waiting then SendLedInternal(l1) else l1
  }

  function OnRebooted(l: Link): (r: Link)
    requires Inv(l)
    ensures Inv(r)
  {
    var l1 := l.(led := LED_INVALID, cfgRequired := false, waiting := false, timers := l.timers - {CfgReqTimer});
    if !l1.manualReset && l1.cfgReady then Raised(l1, SigCfgUpdate) else l1
  }

  function OnCfgUpdate(l: Link): (r: Link)
    requires Inv(l)
    ensures Inv(r)
  {
    var l1 := l.(configured := false, cfgRequired := true);
    if !l1.waiting then SendCfgInternal(l1) else l1
  }

  function OnHwResetOff(l: Link): (r: Link)
    requires Inv(l)
    ensures Inv(r)
  {
    l.(inHwReset := false, timers := l.timers + {CfgReqTimer})
  }

  function OnAckLed(l: Link): (r: Link)
    requires Inv(l)
    ensures Inv(r)
  {
    var l1 := l.(led := LED_INVALID, timeouts := 0, timers := l.timers - {AckTimer}, waiting := false);
    if l1.cfgRequired then SendCfgInternal(l1) else l1
  }

  function OnAckCfg(l: Link): (r: Link)
    requires Inv(l)
    ensures Inv(r)
  {
    var l1 := l.(timeouts := 0, timers := l.timers - {AckTimer}, waiting := false, cfgRequired := false,
                 configured := true);
    if l1.led != LED_INVALID then SendLedInternal(l1) else l1
  }

  /** The timeout's signal has been taken already, so the ACK timer of a waiting link may have stopped. */
  function OnAckTimeout(l: Link): (r: Link)
    requires Inv(l.(waiting := false))
    ensures Inv(r)
  {
    var l1 := l.(waiting := false, timeouts := l.timeouts + 1);
    if l1.timeouts >= NO_ACK_MAX_CNT then Reset(l1.(timeouts := 0))
    else if l1.cfgRequired then SendCfgInternal(l1)
    else if l1.led != LED_INVALID then SendLedInternal(l1)
    else l1
  }

  /** An acknowledgement is matched against the last command, which it uses up whether it matches or not. */
  function OnAckArrives(l: Link, cmd: Cmd, ok: bool): (r: Link)
    requires Inv(l)
    ensures Inv(r)
  {
    var l1 := l.(lastCmd := NoCmd);
    if l.lastCmd != cmd || !ok then l1
    else if cmd == LedCtrl then Raised(l1, SigAckLed)
    else if cmd == SetAll then Raised(l1, SigAckCfg)
    else l1
  }

  // ---------- steps and runs ----------

  function SignalOf(timer: Timer): Sig {
    match timer
    case AckTimer => SigAckTimeout
    case ResetTimer => SigHwResetOff
    case CfgReqTimer => SigCfgReqTimeout
  }

  function OnFire(l: Link, timer: Timer): (r: Link)
    requires Inv(l)
    ensures Inv(r)
  {
    Raised(l.(timers := l.timers - {timer}), SignalOf(timer))
  }

  function Taken(l: Link, sig: Sig): (r: Link)
    ensures Inv(l) && sig != SigAckTimeout ==> Inv(r)
    ensures Inv(l) ==> Inv(r.(waiting := false))
  {
    l.(signals := l.signals - {sig})
  }

  /** The dispatch table of the signals. */
  function OnSignal(l: Link, sig: Sig): (r: Link)
    requires Inv(l)
    ensures Inv(r)
  {
    var l1 := Taken(l, sig);
    match sig
    case SigAckTimeout => OnAckTimeout(l1)
    case SigHwResetOff => OnHwResetOff(l1)
    case SigCfgReqTimeout => Reset(l1)
    case SigCfgUpdate => OnCfgUpdate(l1)
    case SigRebooted => OnRebooted(l1)
    case SigConfigured => l1
    case SigAckLed => OnAckLed(l1)
    case SigAckCfg => OnAckCfg(l1)
  }

  predicate Enabled(l: Link, e: Event) {
    match e
    case SendLed(ms) => ms == LED_INVALID ==> l.waiting
    case Handle(sig) => sig in l.signals
    case Fire(timer) => timer in l.timers
    case NrfReports(sig) => sig == SigRebooted || sig == SigConfigured
    case _ => true
  }

  function Step(l: Link, e: Event): (r: Link)
    requires Inv(l) && Enabled(l, e)
    ensures Inv(r)
  {
    match e
    case NewCfg(cfg) => OnNewCfg(l, cfg)
    case SendLed(ms) => OnSendLed(l, ms)
    case Handle(sig) => OnSignal(l, sig)
    case Fire(timer) => OnFire(l, timer)
    case AckArrives(cmd, ok) => OnAckArrives(l, cmd, ok)
    case NrfReports(sig) => Raised(l, sig)
    case SetManualReset(on) => l.(manualReset := on)
  }
}

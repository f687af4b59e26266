/** Relaying reports one transfer at a time, without blocking: HTTP transfers own the HTTP server's lock while they
    last, an MQTT batch is published report by report and never takes it. */
module AsyncCommModel {
  import opened Lists

  datatype Action = NoAction | AdvsToRuuvi | AdvsToCustom | PostStats | AdvsToMqtt

  datatype Lock = Free | HeldByTask | HeldByServer

  /** An advertisement report; `Blank` is what an unused place of the report table holds. */
  datatype Report = Report(id: nat) | Blank

  /** The two ways by which the next round is scheduled. */
  datatype Wake = Timer | Signal

  /** `needs` are the transfers that were requested, `balance` is how often the relaying task took the lock less how
      often it gave it back, `published` is what was handed to the MQTT client. */
  datatype Comm = Comm(action: Action, inProgress: bool, needs: set<Action>, relaying: bool, network: bool,
                       useTimestamps: bool, batch: Option<seq<Report>>, idx: nat, lock: Lock, balance: int,
                       wakes: set<Wake>, published: seq<Report>)

  /** What one round meets. */
  datatype Env = Env(httpDone: bool, timeSynced: bool, started: bool, statEnabled: bool, mqttEnabled: bool,
                     mqttConnected: bool, memory: bool, reports: seq<Report>, publishOk: bool)

  datatype Event =
    | Round(env: Env)                       // the relaying task handles its round signal
    | TimerFires
    | RelayingModeChanged(on: bool)
    | Request(action: Action, enabled: bool)   // the retransmission or statistics timer of a target
    | Network(on: bool)
    | CfgChanged(timestamps: bool, http: set<Action>)   // the HTTP targets that are in use now
    | ServerLocks
    | ServerUnlocks

  function Init(): Comm {
    Comm(NoAction, false, {}, false, false, false, None, 0, Free, 0, {}, [])
  }

  predicate IsHttp(a: Action) {
    a.AdvsToRuuvi? || a.AdvsToCustom? || a.PostStats?
  }

  predicate OwnsTransfer(c: Comm) {
    c.inProgress && IsHttp(c.action)
  }

  predicate Batching(c: Comm) {
    c.inProgress && c.action.AdvsToMqtt?
  }

  /** The lock is the relaying task's exactly while an HTTP transfer is in progress; every successful try-lock is undone
      once. */
  ghost predicate Inv(c: Comm) {
    && (c.lock.HeldByTask? <==> OwnsTransfer(c))
    && (c.inProgress ==> !c.action.NoAction?)
    && c.balance == (if OwnsTransfer(c) then 1 else 0)
    && (Batching(c) ==> c.batch.Some? && (c.idx < |c.batch.value| || c.idx == 0))
  }

  // ---------- starting ----------

  predicate CanSend(c: Comm, env: Env) {
    c.network && (c.useTimestamps ==> env.timeSynced)
  }

  function Unlocked(c: Comm): Comm {
    c.(lock := if c.lock.HeldByTask? then Free else c.lock, balance := c.balance - 1)
  }

  function Locked(c: Comm): Comm {
    c.(lock := HeldByTask, balance := c.balance + 1)
  }

  /** With the lock taken; gives it back if the transfer cannot be started. */
  function Launched(c: Comm, env: Env, action: Action): Comm {
    if env.started then c.(needs := c.needs - {action}, action := action, inProgress := true)
    else Unlocked(c.(needs := c.needs - {action}, action := NoAction))
  }

  function StartHttp(c: Comm, env: Env, action: Action): Comm {
    if !CanSend(c, env) || !c.lock.Free? then c else Launched(Locked(c), env, action)
  }

  function StartStatistics(c: Comm, env: Env): Comm {
    if !env.statEnabled then c.(needs := c.needs - {PostStats}) else StartHttp(c, env, PostStats)
  }

  function StartMqtt(c: Comm, env: Env): Comm {
    if !env.mqttEnabled || !c.network || !env.mqttConnected then c.(needs := c.needs - {AdvsToMqtt})
    else if c.useTimestamps && !env.timeSynced then c
    else if !env.memory then c.(needs := c.needs - {AdvsToMqtt}, action := NoAction)
    else c.(needs := c.needs - {AdvsToMqtt}, action := AdvsToMqtt, inProgress := true, batch := Some(env.reports),
            idx := 0, wakes := c.wakes + {Signal})
  }

  function WithTimer(c: Comm): Comm {
    c.(wakes := c.wakes + {Timer})
  }

  /** One transfer is tried, in fixed order, and another round is scheduled. */
  function StartNext(c: Comm, env: Env): Comm {
    if !c.relaying then c
    else if AdvsToRuuvi in c.needs then WithTimer(StartHttp(c, env, AdvsToRuuvi))
    else if AdvsToCustom in c.needs then WithTimer(StartHttp(c, env, AdvsToCustom))
    else if PostStats in c.needs then WithTimer(StartStatistics(c, env))
    else if AdvsToMqtt in c.needs then WithTimer(StartMqtt(c, env))
    else c
  }

  // ---------- continuing ----------

  /** The report at an index of the table; beyond the batch its places are blank. */
  function ReportAt(batch: seq<Report>, i: nat): Report {
    if i < |batch| then batch[i] else Blank
  }

  function ContinueMqtt(c: Comm, env: Env): Comm
    requires c.batch.Some?
  {
    if !env.publishOk then c.(batch := None, idx := 0, inProgress := false)
    else
      var published := c.published + [ReportAt(c.batch.value, c.idx)];
      if c.idx + 1 >= |c.batch.value| then c.(published := published, batch := None, idx := 0, inProgress := false)
      else WithTimer(c.(published := published, idx := c.idx + 1))
  }

  function ContinueHttp(c: Comm, env: Env): Comm {
    if !env.httpDone then WithTimer(c)
    else Unlocked(c.(needs := c.needs - {c.action}, action := NoAction, inProgress := false))
  }

  function Continue(c: Comm, env: Env): Comm
    requires Batching(c) ==> c.batch.Some?
  {
    if !c.inProgress then c
    else if c.action.AdvsToMqtt? then ContinueMqtt(c, env)
    else ContinueHttp(c, env)
  }

  function OnRound(c: Comm, env: Env): Comm
    requires Batching(c) ==> c.batch.Some?
  {
    var c1 := Continue(c.(wakes := c.wakes - {Signal}), env);
    if c1.inProgress then c1 else StartNext(c1, env)
  }

  // ---------- other events ----------

  /** Aborts what is in progress and gives the lock back, without asking what kind of transfer it was. */
  function OnRelayingModeChanged(c: Comm, on: bool): Comm {
    if !on && c.inProgress then Unlocked(c.(relaying := on, wakes := c.wakes - {Timer}, inProgress := false))
    else c.(relaying := on)
  }

  /** A request for a transfer that is enabled schedules a round. */
  function OnRequest(c: Comm, action: Action, enabled: bool): Comm {
    if c.relaying && enabled then c.(needs := c.needs + {action}, wakes := c.wakes + {Signal}) else c
  }

  function OnCfgChanged(c: Comm, timestamps: bool, http: set<Action>): Comm {
    WithTimer(c.(useTimestamps := timestamps, needs := (c.needs * {AdvsToMqtt}) + http))
  }

  predicate Enabled(c: Comm, e: Event) {
    match e
    case Round(_) => Signal in c.wakes
    case TimerFires => Timer in c.wakes
    case Request(action, _) => !action.NoAction?
    case CfgChanged(_, http) => forall a :: a in http ==> IsHttp(a)
    case ServerLocks => c.lock.Free?
    case ServerUnlocks => c.lock.HeldByServer?
    case _ => true
  }

  function Step(c: Comm, e: Event): Comm
    requires Batching(c) ==> c.batch.Some?
  {
    match e
    case Round(env) => OnRound(c, env)
    case TimerFires => c.(wakes := c.wakes - {Timer} + {Signal})
    case RelayingModeChanged(on) => OnRelayingModeChanged(c, on)
    case Request(action, enabled) => OnRequest(c, action, enabled)
    case Network(on) => c.(network := on)
    case CfgChanged(timestamps, http) => OnCfgChanged(c, timestamps, http)
    case ServerLocks => c.(lock := HeldByServer)
    case ServerUnlocks => c.(lock := Free)
  }
}

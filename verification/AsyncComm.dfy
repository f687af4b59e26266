/** The relaying task's state, changed in place by its signal handlers. */
module AsyncComm {
  import opened Lists
  import opened AsyncCommModel
  import opened AsyncCommSafety

  class AsyncComm {
    var action: Action
    var inProgress: bool
    var needToSend: set<Action>
    var relayingEnabled: bool
    var networkConnected: bool
    var useTimestamps: bool
    var mqttReports: Option<seq<Report>>
    var mqttIndex: nat
    var serverLock: Lock
    var activeWakes: set<Wake>
    var mqttPublished: seq<Report>
    ghost var balance: int

    ghost function View(): Comm
      reads this
    {
      Comm(action, inProgress, needToSend, relayingEnabled, networkConnected, useTimestamps, mqttReports, mqttIndex,
           serverLock, balance, activeWakes, mqttPublished)
    }

    constructor ()
      ensures View() == Init() && Inv(View())
    {
      action, inProgress, needToSend := NoAction, false, {};
      relayingEnabled, networkConnected, useTimestamps := false, false, false;
      mqttReports, mqttIndex, serverLock := None, 0, Free;
      activeWakes, mqttPublished, balance := {}, [], 0;
    }

    method TryLock() returns (ok: bool)
      modifies this`serverLock, this`balance
      ensures ok == old(serverLock).Free?
      ensures View() == if ok then Locked(old(View())) else old(View())
    {
      ok := serverLock == Free;
      if ok {
        serverLock := HeldByTask;
        balance := balance + 1;
      }
    }

    method Unlock()
      modifies this`serverLock, this`balance
      ensures View() == Unlocked(old(View()))
    {
      if serverLock == HeldByTask {
        serverLock := Free;
      }
      balance := balance - 1;
    }

    method StartTimer()
      modifies this`activeWakes
      ensures View() == WithTimer(old(View()))
    {
      activeWakes := activeWakes + {Timer};
    }

    method SendAdvs(env: Env, target: Action)
      modifies this
      ensures View() == StartHttp(old(View()), env, target)
    {
      if !networkConnected || (useTimestamps && !env.timeSynced) {
        return;
      }
      var locked := TryLock();
      if !locked {
        return;
      }
      Launch(env, target);
    }

    /** With the lock taken; gives it back if the transfer cannot be started. */
    method Launch(env: Env, target: Action)
      modifies this
      ensures View() == Launched(old(View()), env, target)
    {
      action := target;
      needToSend := needToSend - {target};
      if !env.started {
        action := NoAction;
        Unlock();
        return;
      }
      inProgress := true;
    }

    method SendStatistics(env: Env)
      modifies this
      ensures View() == StartStatistics(old(View()), env)
    {
      if !env.statEnabled {
        needToSend := needToSend - {PostStats};
        return;
      }
      SendAdvs(env, PostStats);
    }

    method StartSendingMqtt(env: Env)
      modifies this
      ensures View() == StartMqtt(old(View()), env)
    {
      if !env.mqttEnabled || !networkConnected || !env.mqttConnected {
        needToSend := needToSend - {AdvsToMqtt};
        return;
      }
      if useTimestamps && !env.timeSynced {
        return;
      }
      action := AdvsToMqtt;
      needToSend := needToSend - {AdvsToMqtt};
      if !env.memory {
        action := NoAction;
        return;
      }
      mqttReports, mqttIndex := Some(env.reports), 0;
      inProgress := true;
      activeWakes := activeWakes + {Signal};
    }

    method PublishNext(env: Env) returns (finished: bool)
      requires mqttReports.Some? && inProgress
      modifies this
      ensures finished ==> View().(inProgress := false) == ContinueMqtt(old(View()), env)
      ensures !finished ==> WithTimer(View()) == ContinueMqtt(old(View()), env)
      ensures inProgress
    {
      if !env.publishOk {
        mqttReports, mqttIndex := None, 0;
        return true;
      }
      mqttPublished := mqttPublished + [ReportAt(mqttReports.value, mqttIndex)];
      mqttIndex := mqttIndex + 1;
      if mqttIndex >= |mqttReports.value| {
        mqttReports, mqttIndex := None, 0;
        return true;
      }
      finished := false;
    }

    /** Returns whether the transfer is over. */
    method PollInProgress(env: Env) returns (finished: bool)
      requires inProgress && Inv(View())
      modifies this
      ensures finished ==> View().(inProgress := false) == Continue(old(View()), env)
      ensures !finished ==> View() == Continue(old(View()), env) && inProgress
    {
      if action != AdvsToMqtt {
        if !env.httpDone {
          StartTimer();
          return false;
        }
        needToSend := needToSend - {action};
        action := NoAction;
        Unlock();
        finished := true;
      } else {
        finished := PublishNext(env);
        if !finished {
          StartTimer();
        }
      }
    }

    method StartNextTransfer(env: Env)
      modifies this
      ensures View() == StartNext(old(View()), env)
    {
      if !relayingEnabled {
        return;
      }
      if AdvsToRuuvi in needToSend {
        SendAdvs(env, AdvsToRuuvi);
        StartTimer();
      } else if AdvsToCustom in needToSend {
        SendAdvs(env, AdvsToCustom);
        StartTimer();
      } else if PostStats in needToSend {
        SendStatistics(env);
        StartTimer();
      } else if AdvsToMqtt in needToSend {
        StartSendingMqtt(env);
        StartTimer();
      }
    }

    method RunRound(env: Env)
      requires Inv(View())
      modifies this
      ensures View() == OnRound(old(View()), env)
    {
      activeWakes := activeWakes - {Signal};
      if inProgress {
        var finished := PollInProgress(env);
        if !finished {
          return;
        }
        inProgress := false;
      }
      StartNextTransfer(env);
    }

    /** One round of the relaying task; the lock is held afterwards exactly if an HTTP transfer is in progress. */
    method DoAsyncComm(env: Env)
      requires Inv(View())
      modifies this
      ensures View() == OnRound(old(View()), env) && Inv(View())
      ensures serverLock.HeldByTask? <==> OwnsTransfer(View())
    {
      RoundKeepsInv(View(), env);
      RunRound(env);
    }

    /** Keeps the ownership of the lock, unless it aborts an MQTT batch. */
    method HandleRelayingModeChanged(on: bool)
      requires Inv(View())
      modifies this
      ensures View() == OnRelayingModeChanged(old(View()), on)
      ensures Inv(View()) <==> on || !old(Batching(View()))
    {
      relayingEnabled := on;
      if !relayingEnabled && inProgress {
        activeWakes := activeWakes - {Timer};
        inProgress := false;
        Unlock();
      }
    }

    method HandleRequest(target: Action, enabled: bool)
      requires Inv(View())
      modifies this
      ensures View() == OnRequest(old(View()), target, enabled) && Inv(View())
    {
      if relayingEnabled && enabled {
        needToSend := needToSend + {target};
        activeWakes := activeWakes + {Signal};
      }
    }

    method HandleCfgChanged(timestamps: bool, http: set<Action>)
      requires Inv(View())
      modifies this
      ensures View() == OnCfgChanged(old(View()), timestamps, http) && Inv(View())
    {
      useTimestamps := timestamps;
      needToSend := needToSend * {AdvsToMqtt} + http;
      StartTimer();
    }

    method HandleEvent(e: Event)
      requires Inv(View()) && Enabled(View(), e)
      modifies this
      ensures View() == Step(old(View()), e)
      ensures Inv(View()) <==> !AbortsBatch(old(View()), e)
    {
      OwnershipKeptIff(View(), e);
      match e
      case Round(env) => DoAsyncComm(env);
      case TimerFires => activeWakes := activeWakes - {Timer} + {Signal};
      case RelayingModeChanged(on) => HandleRelayingModeChanged(on);
      case Request(target, enabled) => HandleRequest(target, enabled);
      case Network(on) => networkConnected := on;
      case CfgChanged(timestamps, http) => HandleCfgChanged(timestamps, http);
      case ServerLocks => serverLock := HeldByServer;
      case ServerUnlocks => serverLock := Free;
    }

    /** Any sequence of events in place that never aborts a batch: the lock is held exactly while an HTTP transfer is in
        progress and was given back as often as it was taken otherwise; and unless publishing failed, all batches read
        were published in order, up to what is still owed. */
    method HandleEvents(es: seq<Event>)
      requires Inv(View()) && Calm(View(), es)
      modifies this
      ensures Inv(View()) && View() == Run(old(View()), es)
      ensures serverLock.HeldByTask? <==> inProgress && IsHttp(action)
      ensures balance == if serverLock.HeldByTask? then 1 else 0
      ensures NothingDropped(old(View()), es) ==>
                mqttPublished + Owed(View()) == old(mqttPublished) + Owed(old(View())) + AllBatches(old(View()), es)
    {
      ghost var before := View();
      for i := 0 to |es|
        invariant Inv(View()) && Calm(View(), es[i..]) && Run(View(), es[i..]) == Run(before, es)
      {
        HandleEvent(es[i]);
        assert es[i..][1..] == es[i + 1..];
      }
      if NothingDropped(before, es) {
        BatchesPublishedInOrder(before, es);
      }
    }
  }
}

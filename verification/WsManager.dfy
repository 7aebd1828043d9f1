/** WSConnectionManager with its per-user dictionaries updated in place
    (src/services/ws_manager.py). Each method is one step of the user's slot in Pool and
    leaves every other user's slot alone. */
module WsManagers {
  import opened PyText
  import opened MappingStore
  import opened Pool

  /** The event loop's part for one user: clients, sends and guardians ever made. */
  datatype Tasks = Tasks(
    conns: seq<Conn>, senders: seq<Sender>, guardians: seq<Guardian>, order: seq<nat>, trace: seq<nat>)

  class WSConnectionManager {
    const retries: nat

    var clients: map<string, nat>
    var locks: map<string, Option<Owner>>
    var sendLocks: map<string, Option<nat>>
    var userInfo: map<string, InstanceInfo>
    var guardianTasks: map<string, nat>
    var tasks: map<string, Tasks>

    function TasksOf(u: string): Tasks
      reads this
    {
      if u in tasks then tasks[u] else Tasks([], [], [], [], [])
    }

    function Slot(u: string): Pool
      reads this
    {
      var t := TasksOf(u);
      Pool(if u in clients then Some(clients[u]) else None,
           if u in userInfo then Some(userInfo[u]) else None,
           if u in guardianTasks then Some(guardianTasks[u]) else None,
           if u in locks then locks[u] else None,
           if u in sendLocks then sendLocks[u] else None,
           t.conns, t.senders, t.guardians, t.order, t.trace)
    }

    /** Every user's slot keeps the pool's invariants between any two steps. */
    ghost predicate Valid()
      reads this
    {
      forall u :: Inv(Slot(u))
    }

    /** A change of one slot that leaves the others alone. */
    twostate lemma StillValid(u: string)
      requires old(Valid()) && Inv(Slot(u)) && forall v | v != u :: Slot(v) == old(Slot(v))
      ensures Valid()
    {
      forall v
        ensures Inv(Slot(v))
      {
        assert v != u ==> Slot(v) == old(Slot(v)) && old(Inv(Slot(v)));
      }
    }

    constructor (retries: nat)
      ensures Valid() && this.retries == retries
      ensures forall u :: Slot(u) == EMPTY
    {
      this.retries := retries;
      clients, locks, sendLocks, userInfo, guardianTasks, tasks := map[], map[], map[], map[], map[], map[];
    }

    /*** send_message ***/

    method SendBegins(u: string, info: InstanceInfo) returns (key: nat)
      requires Valid()
      modifies this`tasks
      ensures Valid()
      ensures Slot(u) == Step(old(Slot(u)), Send(info), retries)
      ensures key == |old(Slot(u)).senders|
      ensures forall v | v != u :: Slot(v) == old(Slot(v))
    {
      var t := TasksOf(u);
      key := |t.senders|;
      tasks := tasks[u := t.(senders := t.senders + [Sender(info, None, Queued)])];
      StepKeepsInv(old(Slot(u)), Send(info), retries);
      StillValid(u);
    }

    method AcquireSendLock(u: string, s: nat)
      requires Valid()
      requires Enabled(Slot(u), TakeSendLock(s))
      modifies this`tasks, this`sendLocks
      ensures Valid()
      ensures Slot(u) == Step(old(Slot(u)), TakeSendLock(s), retries)
      ensures forall v | v != u :: Slot(v) == old(Slot(v))
    {
      var t := TasksOf(u);
      sendLocks := sendLocks[u := Some(s)];
      tasks := tasks[u := t.(senders := t.senders[s := t.senders[s].(stage := NeedsClient)], order := t.order + [s])];
      StepKeepsInv(old(Slot(u)), TakeSendLock(s), retries);
      StillValid(u);
    }

    method ClientRaised(u: string, s: nat, c: nat, delivered: bool)
      requires s < |Slot(u).senders|
      modifies this`tasks, this`sendLocks
      ensures Slot(u) == Fail(old(Slot(u)), s, c)
                         .(trace := old(Slot(u)).trace + (if delivered then [s] else []))
      ensures forall v | v != u :: Slot(v) == old(Slot(v))
    {
      var t := TasksOf(u);
      var trace := if delivered then t.trace + [s] else t.trace;
      if t.senders[s].failed.Some? {
        tasks := tasks[u := t.(senders := t.senders[s := t.senders[s].(stage := Ended(false))], trace := trace)];
        sendLocks := sendLocks[u := None];
      } else {
        tasks := tasks[u := t.(senders := t.senders[s := t.senders[s].(stage := Failing(c))], trace := trace)];
      }
    }

    method ClientSends(u: string, s: nat, c: nat)
      requires s < |Slot(u).senders|
      modifies this`tasks
      ensures Slot(u) == SetStage(old(Slot(u)), s, Waiting(c)).(trace := old(Slot(u)).trace + [s])
      ensures forall v | v != u :: Slot(v) == old(Slot(v))
    {
      var t := TasksOf(u);
      tasks := tasks[u := t.(senders := t.senders[s := t.senders[s].(stage := Waiting(c))], trace := t.trace + [s])];
    }

    method ClientWrites(u: string, s: nat, outcome: WriteOutcome)
      requires Valid()
      requires Enabled(Slot(u), Write(s, outcome))
      modifies this`tasks, this`sendLocks
      ensures Valid()
      ensures Slot(u) == Step(old(Slot(u)), Write(s, outcome), retries)
      ensures forall v | v != u :: Slot(v) == old(Slot(v))
    {
      var t := TasksOf(u);
      var c := t.senders[s].stage.c;
      if !(c < |t.conns| && t.conns[c].link.Open?) {
        ClientRaised(u, s, c, false);
      } else if outcome.Lost? {
        ClientRaised(u, s, c, outcome.delivered);
      } else {
        ClientSends(u, s, c);
      }
      assert Slot(u) == OnWrite(old(Slot(u)), s, outcome);
      StepKeepsInv(old(Slot(u)), Write(s, outcome), retries);
      StillValid(u);
    }

    method ClientAnswered(u: string, s: nat)
      requires Valid()
      requires Enabled(Slot(u), Answer(s))
      modifies this`tasks, this`sendLocks
      ensures Valid()
      ensures Slot(u) == Step(old(Slot(u)), Answer(s), retries)
      ensures forall v | v != u :: Slot(v) == old(Slot(v))
    {
      var t := TasksOf(u);
      tasks := tasks[u := t.(senders := t.senders[s := t.senders[s].(stage := Ended(true))])];
      sendLocks := sendLocks[u := None];
      StepKeepsInv(old(Slot(u)), Answer(s), retries);
      StillValid(u);
    }

    /** The failed client is closed, pooled or not, before the one retry. */
    method CloseAndRetry(u: string, s: nat)
      requires Valid()
      requires Enabled(Slot(u), Event.Retry(s))
      modifies this`tasks
      ensures Valid()
      ensures Slot(u) == Step(old(Slot(u)), Event.Retry(s), retries)
      ensures forall v | v != u :: Slot(v) == old(Slot(v))
    {
      var t := TasksOf(u);
      var sender := t.senders[s];
      tasks := tasks[u := t.(conns := SetLink(t.conns, sender.stage.c, Closed),
                             senders := t.senders[s := sender.(failed := Some(sender.stage.c), stage := NeedsClient)])];
      StepKeepsInv(old(Slot(u)), Event.Retry(s), retries);
      StillValid(u);
    }

    /*** get_or_create ***/

    /** Closes the pooled client and starts connecting a new one, holding the lock. */
    method OpenNew(u: string, s: nat)
      requires s < |Slot(u).senders| && !PooledOpen(Slot(u))
      modifies this`tasks, this`locks
      ensures Slot(u) == OnTakeLock(old(Slot(u)), s, retries)
      ensures forall v | v != u :: Slot(v) == old(Slot(v))
    {
      var t := TasksOf(u);
      var conns := t.conns;
      if u in clients {
        conns := SetLink(conns, clients[u], Closed);
      }
      var sender := t.senders[s];
      tasks := tasks[u := t.(senders := t.senders[s := sender.(stage := Opening(|conns|, retries))],
                             conns := conns + [Conn(sender.info, Fresh)])];
      locks := locks[u := Some(BySender(s))];
    }

    /** Reuses the pooled client while it is connected. */
    method GetOrCreate(u: string, s: nat)
      requires Valid()
      requires Enabled(Slot(u), TakeLock(s))
      modifies this`tasks, this`locks
      ensures Valid()
      ensures Slot(u) == Step(old(Slot(u)), TakeLock(s), retries)
      ensures forall v | v != u :: Slot(v) == old(Slot(v))
    {
      var conns := TasksOf(u).conns;
      if u in clients && clients[u] < |conns| && conns[clients[u]].link.Open? {
        SenderMoves(u, s, Ready(clients[u]));
      } else {
        OpenNew(u, s);
      }
      StepKeepsInv(old(Slot(u)), TakeLock(s), retries);
      StillValid(u);
    }

    method StartGuardian(u: string)
      modifies this`tasks, this`guardianTasks
      ensures Slot(u) == WithNewGuardian(old(Slot(u)))
      ensures forall v | v != u :: Slot(v) == old(Slot(v))
    {
      var t := TasksOf(u);
      var guardians := t.guardians;
      if u in guardianTasks {
        var g := guardianTasks[u];
        if g < |guardians| && !guardians[g].watch.Gone? {
          guardians := guardians[g := guardians[g].(cancelled := true)];
        }
      }
      guardianTasks := guardianTasks[u := |guardians|];
      tasks := tasks[u := t.(guardians := guardians + [Guardian(Top, false)])];
    }

    method ReleaseLock(u: string)
      modifies this`locks
      ensures Slot(u) == old(Slot(u)).(lock := None)
      ensures forall v | v != u :: Slot(v) == old(Slot(v))
    {
      locks := locks[u := None];
    }

    method PoolClient(u: string, c: nat)
      modifies this`tasks, this`clients
      ensures Slot(u) == old(Slot(u)).(conns := SetLink(old(Slot(u)).conns, c, Open), client := Some(c))
      ensures forall v | v != u :: Slot(v) == old(Slot(v))
    {
      var t := TasksOf(u);
      tasks := tasks[u := t.(conns := SetLink(t.conns, c, Open))];
      clients := clients[u := c];
    }

    method SenderMoves(u: string, s: nat, stage: Stage)
      requires s < |Slot(u).senders|
      modifies this`tasks
      ensures Slot(u) == SetStage(old(Slot(u)), s, stage)
      ensures forall v | v != u :: Slot(v) == old(Slot(v))
    {
      var t := TasksOf(u);
      tasks := tasks[u := t.(senders := t.senders[s := t.senders[s].(stage := stage)])];
    }

    method ConnectGivesUp(u: string, s: nat)
      requires s < |Slot(u).senders|
      modifies this`tasks, this`locks, this`sendLocks
      ensures Slot(u) == End(old(Slot(u)), s, false).(lock := None)
      ensures forall v | v != u :: Slot(v) == old(Slot(v))
    {
      SenderMoves(u, s, Ended(false));
      ReleaseLock(u);
      sendLocks := sendLocks[u := None];
    }

    method RememberInfo(u: string, info: InstanceInfo)
      modifies this`userInfo
      ensures Slot(u) == old(Slot(u)).(info := Some(info))
      ensures forall v | v != u :: Slot(v) == old(Slot(v))
    {
      userInfo := userInfo[u := info];
    }

    method ConnectAttempt(u: string, s: nat, ok: bool)
      requires Valid()
      requires Enabled(Slot(u), Attempt(s, ok))
      modifies this
      ensures Valid()
      ensures Slot(u) == Step(old(Slot(u)), Attempt(s, ok), retries)
      ensures forall v | v != u :: Slot(v) == old(Slot(v))
    {
      var sender := TasksOf(u).senders[s];
      var c := sender.stage.c;
      if sender.stage.left == 0 {
        ConnectGivesUp(u, s);
      } else if ok {
        SenderMoves(u, s, Ready(c));
        PoolClient(u, c);
        RememberInfo(u, sender.info);
        StartGuardian(u);
        ReleaseLock(u);
      } else {
        SenderMoves(u, s, Opening(c, sender.stage.left - 1));
      }
      StepKeepsInv(old(Slot(u)), Attempt(s, ok), retries);
      StillValid(u);
    }

    /*** _guardian_loop ***/

    method GuardianMoves(u: string, g: nat, watch: Watch)
      requires g < |Slot(u).guardians|
      modifies this`tasks
      ensures Slot(u) == SetWatch(old(Slot(u)), g, watch)
      ensures forall v | v != u :: Slot(v) == old(Slot(v))
    {
      var t := TasksOf(u);
      tasks := tasks[u := t.(guardians := t.guardians[g := t.guardians[g].(watch := watch)])];
    }

    method GuardianLooks(u: string, g: nat)
      requires Valid()
      requires Enabled(Slot(u), Look(g))
      modifies this`tasks
      ensures Valid()
      ensures Slot(u) == Step(old(Slot(u)), Look(g), retries)
      ensures forall v | v != u :: Slot(v) == old(Slot(v))
    {
      if u !in clients {
        GuardianMoves(u, g, Gone);
      } else {
        GuardianMoves(u, g, Watching(clients[u]));
      }
      StepKeepsInv(old(Slot(u)), Look(g), retries);
      StillValid(u);
    }

    /** After the pause: without an info there is nothing to reconnect to. */
    method GuardianWakes(u: string, g: nat)
      requires Valid()
      requires Enabled(Slot(u), Wake(g))
      modifies this`tasks
      ensures Valid()
      ensures Slot(u) == Step(old(Slot(u)), Wake(g), retries)
      ensures forall v | v != u :: Slot(v) == old(Slot(v))
    {
      if u !in userInfo {
        GuardianMoves(u, g, Gone);
      } else {
        GuardianMoves(u, g, WantsLock(userInfo[u]));
      }
      StepKeepsInv(old(Slot(u)), Wake(g), retries);
      StillValid(u);
    }

    method GuardianReopens(u: string, g: nat)
      requires Valid()
      requires Enabled(Slot(u), GuardianTakesLock(g))
      modifies this`tasks, this`locks
      ensures Valid()
      ensures Slot(u) == Step(old(Slot(u)), GuardianTakesLock(g), retries)
      ensures forall v | v != u :: Slot(v) == old(Slot(v))
    {
      var t := TasksOf(u);
      var conns := t.conns;
      if u in clients {
        conns := SetLink(conns, clients[u], Closed);
      }
      tasks := tasks[u := t.(guardians := t.guardians[g := t.guardians[g].(watch := Reopening(|conns|, retries))],
                             conns := conns + [Conn(t.guardians[g].watch.info, Fresh)])];
      locks := locks[u := Some(ByGuardian(g))];
      StepKeepsInv(old(Slot(u)), GuardianTakesLock(g), retries);
      StillValid(u);
    }

    method GuardianConnects(u: string, g: nat, ok: bool)
      requires Valid()
      requires Enabled(Slot(u), GuardianAttempt(g, ok))
      modifies this`tasks, this`locks, this`clients
      ensures Valid()
      ensures Slot(u) == Step(old(Slot(u)), GuardianAttempt(g, ok), retries)
      ensures forall v | v != u :: Slot(v) == old(Slot(v))
    {
      var watch := TasksOf(u).guardians[g].watch;
      if watch.left == 0 {
        GuardianMoves(u, g, Cooling);
        ReleaseLock(u);
      } else if ok {
        GuardianMoves(u, g, Top);
        PoolClient(u, watch.c);
        ReleaseLock(u);
      } else {
        GuardianMoves(u, g, Reopening(watch.c, watch.left - 1));
      }
      StepKeepsInv(old(Slot(u)), GuardianAttempt(g, ok), retries);
      StillValid(u);
    }

    /*** close_connection and queries ***/

    method StopGuardian(u: string)
      modifies this`tasks, this`guardianTasks
      ensures u !in guardianTasks
      ensures Slot(u) == old(Slot(u)).(guardian := None,
                                       guardians := StopAndAwait(old(Slot(u)).guardians, old(Slot(u)).guardian))
      ensures forall v | v != u :: Slot(v) == old(Slot(v))
    {
      if u in guardianTasks {
        var t := TasksOf(u);
        var g := guardianTasks[u];
        if g < |t.guardians| {
          var cancelled := t.guardians[g].cancelled || !t.guardians[g].watch.Gone?;
          tasks := tasks[u := t.(guardians := t.guardians[g := Guardian(Gone, cancelled)])];
        }
        guardianTasks := guardianTasks - {u};
      }
    }

    method ForgetClient(u: string)
      modifies this`tasks, this`clients, this`userInfo
      ensures u !in clients && u !in userInfo
      ensures Slot(u) == old(Slot(u)).(conns := ClosePooled(old(Slot(u)).conns, old(Slot(u)).client),
                                       client := None, info := None)
      ensures forall v | v != u :: Slot(v) == old(Slot(v))
    {
      if u in clients {
        var t := TasksOf(u);
        tasks := tasks[u := t.(conns := SetLink(t.conns, clients[u], Closed))];
      }
      clients := clients - {u};
      userInfo := userInfo - {u};
    }

    method DropLocks(u: string)
      modifies this`locks, this`sendLocks
      ensures u !in locks && u !in sendLocks
      ensures Slot(u) == old(Slot(u)).(lock := None, sendLock := None)
      ensures forall v | v != u :: Slot(v) == old(Slot(v))
    {
      locks := locks - {u};
      sendLocks := sendLocks - {u};
    }

    /** Allowed only while no task holds or waits for this user's locks, which it drops. */
    method CloseConnection(u: string)
      requires Valid()
      requires Enabled(Slot(u), Event.CloseConnection)
      modifies this
      ensures Valid()
      ensures Slot(u) == Step(old(Slot(u)), Event.CloseConnection, retries)
      ensures u !in clients && u !in userInfo && u !in guardianTasks && u !in locks && u !in sendLocks
      ensures forall v | v != u :: Slot(v) == old(Slot(v))
    {
      StopGuardian(u);
      ForgetClient(u);
      DropLocks(u);
      StepKeepsInv(old(Slot(u)), Event.CloseConnection, retries);
      StillValid(u);
    }

    method GetCachedInfo(u: string) returns (info: Option<InstanceInfo>)
      ensures info == Slot(u).info
    {
      info := if u in userInfo then Some(userInfo[u]) else None;
    }
  }
}

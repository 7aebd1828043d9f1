/** What the pool of src/services/ws_manager.py does get done: the one retry of a send,
    the bounded connection attempts, and the guardian's reconnect. */
module PoolProgress {
  import opened PyText
  import opened MappingStore
  import opened Pool

  /*** The one retry ***/

  /** In this state the event makes an attempt of send s fail: its write is refused for
      want of a connection, or lost, or its answer is an error. */
  predicate AttemptFails(p: Pool, ev: Event, s: nat) {
    s < |p.senders| &&
    match ev
    case Write(t, outcome) =>
      t == s && p.senders[s].stage.Ready? && (outcome.Lost? || !IsOpen(p, p.senders[s].stage.c))
    case Error(t) => t == s && p.senders[s].stage.Waiting?
    case _ => false
  }

  /** In this state the event finds no connection attempt left for send s. */
  predicate GivesUp(p: Pool, ev: Event, s: nat) {
    ev.Attempt? && ev.s == s && s < |p.senders| && p.senders[s].stage.Opening? && p.senders[s].stage.left == 0
  }

  function Failures(evs: seq<Event>, retries: nat, s: nat): nat {
    if evs == [] then 0
    else
      var front := evs[..|evs| - 1];
      Failures(front, retries, s) + if AttemptFails(Run(front, retries), evs[|evs| - 1], s) then 1 else 0
  }

  function GiveUps(evs: seq<Event>, retries: nat, s: nat): nat {
    if evs == [] then 0
    else
      var front := evs[..|evs| - 1];
      GiveUps(front, retries, s) + if GivesUp(Run(front, retries), evs[|evs| - 1], s) then 1 else 0
  }

  /** Where a send may stand after so many failed attempts and give-ups. */
  ghost predicate StandsAt(sender: Sender, failures: nat, giveUps: nat) {
    match sender.stage
    case Queued => failures == 0 && giveUps == 0 && sender.failed.None?
    case Failing(_) => failures == 1 && giveUps == 0 && sender.failed.None?
    case Ended(ok) => if ok then failures < 2 && giveUps == 0 else failures <= 2 && (failures == 2 || giveUps == 1)
    case _ => failures == (if sender.failed.Some? then 1 else 0) && giveUps == 0
  }

  ghost predicate Accounted(p: Pool, evs: seq<Event>, retries: nat) {
    forall s | 0 <= s < |p.senders| :: StandsAt(p.senders[s], Failures(evs, retries, s), GiveUps(evs, retries, s))
  }

  lemma {:induction false} NothingBeforeSend(evs: seq<Event>, retries: nat, s: nat)
    requires |Run(evs, retries).senders| <= s
    ensures Failures(evs, retries, s) == 0 && GiveUps(evs, retries, s) == 0
  {
    if evs != [] {
      SendersGrow(Run(evs[..|evs| - 1], retries), evs[|evs| - 1], retries);
      NothingBeforeSend(evs[..|evs| - 1], retries, s);
    }
  }

  lemma SendersGrow(p: Pool, ev: Event, retries: nat)
    ensures |Step(p, ev, retries).senders| == |p.senders| + if ev.Send? then 1 else 0
  {
  }

  predicate Concerns(ev: Event, s: nat) {
    IsSendStep(ev) && !ev.Send? && ev.s == s
  }

  lemma Untouched(p: Pool, ev: Event, retries: nat, s: nat)
    requires s < |p.senders| && (!Concerns(ev, s) || !Enabled(p, ev))
    ensures s < |Step(p, ev, retries).senders| && Step(p, ev, retries).senders[s] == p.senders[s]
    ensures !AttemptFails(p, ev, s) && !GivesUp(p, ev, s)
  {
    if IsGuardianStep(ev) && Enabled(p, ev) {
      GuardiansLeaveSenders(p, ev, retries);
    }
  }

  lemma GuardiansLeaveSenders(p: Pool, ev: Event, retries: nat)
    requires IsGuardianStep(ev)
    ensures Step(p, ev, retries).senders == p.senders
  {
  }

  /** The steps that get a send its client. */
  lemma GettingMoves(p: Pool, ev: Event, retries: nat, s: nat, failures: nat, giveUps: nat)
    requires Enabled(p, ev) && Concerns(ev, s) && StandsAt(p.senders[s], failures, giveUps)
    requires ev.TakeSendLock? || ev.TakeLock? || ev.Attempt? || ev.Retry?
    ensures !AttemptFails(p, ev, s)
    ensures StandsAt(Step(p, ev, retries).senders[s], failures, giveUps + (if GivesUp(p, ev, s) then 1 else 0))
  {
  }

  /** The steps that use it. */
  lemma UsingMoves(p: Pool, ev: Event, retries: nat, s: nat, failures: nat, giveUps: nat)
    requires Enabled(p, ev) && Concerns(ev, s) && StandsAt(p.senders[s], failures, giveUps)
    requires ev.Write? || ev.Answer? || ev.Error?
    ensures !GivesUp(p, ev, s)
    ensures StandsAt(Step(p, ev, retries).senders[s], failures + (if AttemptFails(p, ev, s) then 1 else 0), giveUps)
  {
  }

  lemma SenderMoves(p: Pool, ev: Event, retries: nat, s: nat, failures: nat, giveUps: nat)
    requires s < |p.senders| && StandsAt(p.senders[s], failures, giveUps)
    ensures s < |Step(p, ev, retries).senders|
    ensures StandsAt(Step(p, ev, retries).senders[s],
                     failures + (if AttemptFails(p, ev, s) then 1 else 0),
                     giveUps + (if GivesUp(p, ev, s) then 1 else 0))
  {
    SendersGrow(p, ev, retries);
    if !Concerns(ev, s) || !Enabled(p, ev) {
      Untouched(p, ev, retries, s);
    } else if ev.Write? || ev.Answer? || ev.Error? {
      UsingMoves(p, ev, retries, s, failures, giveUps);
    } else {
      GettingMoves(p, ev, retries, s, failures, giveUps);
    }
  }

  lemma StandsIff(sender: Sender, failures: nat, giveUps: nat)
    requires StandsAt(sender, failures, giveUps)
    ensures sender.stage == Ended(false) <==> failures == 2 || giveUps == 1
    ensures failures <= 2
  {
  }

  lemma {:induction false} RunAccounted(evs: seq<Event>, retries: nat)
    ensures Accounted(Run(evs, retries), evs, retries)
  {
    if evs != [] {
      var front, ev := evs[..|evs| - 1], evs[|evs| - 1];
      var p, p' := Run(front, retries), Run(evs, retries);
      RunAccounted(front, retries);
      SendersGrow(p, ev, retries);
      forall s | 0 <= s < |p'.senders|
        ensures StandsAt(p'.senders[s], Failures(evs, retries, s), GiveUps(evs, retries, s))
      {
        if s < |p.senders| {
          SenderMoves(p, ev, retries, s, Failures(front, retries, s), GiveUps(front, retries, s));
        } else {
          NothingBeforeSend(front, retries, s);
        }
      }
    }
  }

  /** A send ends without an answer if and only if it was tried twice in vain or its
      connection attempts ran out; nothing fails more often than that. */
  lemma FailsIffTriedTwice(evs: seq<Event>, retries: nat, s: nat)
    requires s < |Run(evs, retries).senders|
    ensures Run(evs, retries).senders[s].stage == Ended(false)
       <==> Failures(evs, retries, s) == 2 || GiveUps(evs, retries, s) == 1
    ensures Failures(evs, retries, s) <= 2
  {
    RunAccounted(evs, retries);
    StandsIff(Run(evs, retries).senders[s], Failures(evs, retries, s), GiveUps(evs, retries, s));
  }

  /** After a first attempt that was refused, lost or answered with an error the retry is
      enabled, with the send lock still held; and it stays so until it is taken. */
  lemma FirstFailureIsRetried(evs: seq<Event>, retries: nat, ev: Event, s: nat)
    requires AttemptFails(Run(evs, retries), ev, s) && Failures(evs, retries, s) == 0
    ensures var p := Step(Run(evs, retries), ev, retries);
            && Enabled(p, Retry(s)) && p.sendLock == Some(s)
            && forall other | other != Retry(s) ::
                 Enabled(Step(p, other, retries), Retry(s)) && Step(p, other, retries).sendLock == Some(s)
  {
    RunAccounted(evs, retries);
    RunKeepsInv(evs, retries);
    var p := Run(evs, retries);
    assert StandsAt(p.senders[s], 0, GiveUps(evs, retries, s));
    assert SenderOk(p, s);
    StepKeepsInv(p, ev, retries);
    forall other | other != Retry(s)
      ensures var q := Step(Step(p, ev, retries), other, retries);
              Enabled(q, Retry(s)) && q.sendLock == Some(s)
    {
      FailingWaits(Step(p, ev, retries), other, retries, s);
    }
  }

  lemma FailingWaits(p: Pool, ev: Event, retries: nat, s: nat)
    requires Inv(p) && Enabled(p, Retry(s)) && ev != Retry(s)
    ensures Enabled(Step(p, ev, retries), Retry(s)) && Step(p, ev, retries).sendLock == Some(s)
  {
    Untouched(p, ev, retries, s);
    StepKeepsInv(p, ev, retries);
    assert SenderOk(Step(p, ev, retries), s);
  }

  /*** Getting a client ***/

  /** A connected pooled client is used as it is: no connection is opened or closed. */
  lemma ConnectedIsReused(p: Pool, s: nat, c: nat, retries: nat)
    requires Enabled(p, TakeLock(s)) && p.client == Some(c) && c < |p.conns| && p.conns[c].link.Open?
    ensures var p' := Step(p, TakeLock(s), retries);
            p'.senders[s].stage == Ready(c) && p'.conns == p.conns && p'.client == p.client && p'.lock.None?
  {
  }

  /** Otherwise a new client for the caller's info gets all the configured attempts. */
  lemma OtherwiseOpensNew(p: Pool, s: nat, retries: nat)
    requires Enabled(p, TakeLock(s)) && !(p.client.Some? && IsOpen(p, p.client.value))
    ensures var p' := Step(p, TakeLock(s), retries);
            && p'.senders[s].stage == Opening(|p.conns|, retries) && p'.lock == Some(BySender(s))
            && |p'.conns| == |p.conns| + 1 && p'.conns[|p.conns|] == Conn(p.senders[s].info, Fresh)
  {
  }

  function FailedAttempts(p: Pool, s: nat, k: nat, retries: nat): Pool {
    if k == 0 then p else Step(FailedAttempts(p, s, k - 1, retries), Attempt(s, false), retries)
  }

  lemma {:induction false} AttemptsCountDown(p: Pool, s: nat, k: nat, retries: nat)
    requires Enabled(p, Attempt(s, false)) && k <= p.senders[s].stage.left
    ensures FailedAttempts(p, s, k, retries)
         == SetStage(p, s, Opening(p.senders[s].stage.c, p.senders[s].stage.left - k))
  {
    if k == 0 {
      var stage := p.senders[s].stage;
      assert p.senders[s := p.senders[s].(stage := Opening(stage.c, stage.left))] == p.senders;
    } else {
      AttemptsCountDown(p, s, k - 1, retries);
    }
  }

  /** A send connects if any of its attempts succeeds, and gives up exactly after as many
      failures as it was given: on success its client is open and pooled with its info,
      the lock is free again, and a new guardian is live. */
  lemma ConnectsWithinAttempts(p: Pool, s: nat, k: nat, retries: nat)
    requires Inv(p) && Enabled(p, Attempt(s, false)) && k <= p.senders[s].stage.left
    ensures var c := p.senders[s].stage.c;
            var p' := Step(FailedAttempts(p, s, k, retries), Attempt(s, true), retries);
            s < |p'.senders| &&
            if k == p.senders[s].stage.left then
              p'.senders[s].stage == Ended(false) && p'.lock.None? && p'.sendLock.None? && p'.client == p.client
            else
              && p'.senders[s].stage == Ready(c) && IsOpen(p', c) && p'.client == Some(c)
              && p'.info == Some(p.senders[s].info) && p'.lock.None?
              && p'.guardian == Some(|p.guardians|) && |p'.guardians| == |p.guardians| + 1
              && p'.guardians[|p.guardians|] == Guardian(Top, false)
  {
    assert SenderOk(p, s);
    AttemptsCountDown(p, s, k, retries);
  }

  /*** The guardian ***/

  function GuardianFailures(p: Pool, g: nat, k: nat, retries: nat): Pool {
    if k == 0 then p else Step(GuardianFailures(p, g, k - 1, retries), GuardianAttempt(g, false), retries)
  }

  lemma {:induction false} GuardianCountsDown(p: Pool, g: nat, k: nat, retries: nat)
    requires Enabled(p, GuardianAttempt(g, false)) && k <= p.guardians[g].watch.left
    ensures GuardianFailures(p, g, k, retries)
         == SetWatch(p, g, Reopening(p.guardians[g].watch.c, p.guardians[g].watch.left - k))
  {
    if k == 0 {
      var watch := p.guardians[g].watch;
      assert p.guardians[g := p.guardians[g].(watch := Reopening(watch.c, watch.left))] == p.guardians;
    } else {
      GuardianCountsDown(p, g, k - 1, retries);
    }
  }

  /** The steps from a lost connection to the first attempt. */
  function Noticed(p: Pool, g: nat, retries: nat): Pool {
    Step(Step(Step(p, Detect(g), retries), Wake(g), retries), GuardianTakesLock(g), retries)
  }

  /** The new client is open and pooled with the remembered info, the lock is free, and
      the guardian goes on watching. */
  predicate Reconnected(p: Pool, g: nat, c: nat, info: Option<InstanceInfo>) {
    && IsOpen(p, c) && p.client == Some(c) && p.info == info && info == Some(p.conns[c].info) && p.lock.None?
    && g < |p.guardians| && p.guardians[g] == Guardian(Top, false)
  }

  /** The guardian has released the lock and, once rested, looks again. */
  predicate Resting(p: Pool, g: nat, retries: nat) {
    && p.lock.None? && g < |p.guardians| && p.guardians[g].Alive()
    && |Step(p, Rest(g), retries).guardians| > g && Step(p, Rest(g), retries).guardians[g] == Guardian(Top, false)
  }

  /** A guardian's attempt that could succeed, with some left or none. */
  lemma AttemptOutcome(q: Pool, g: nat, retries: nat)
    requires g < |q.guardians| && q.guardians[g].watch.Reopening? && !q.guardians[g].cancelled
    requires q.guardians[g].watch.c < |q.conns| && q.info == Some(q.conns[q.guardians[g].watch.c].info)
    ensures var q' := Step(q, GuardianAttempt(g, true), retries);
            if q.guardians[g].watch.left == 0 then Resting(q', g, retries)
            else Reconnected(q', g, q.guardians[g].watch.c, q.info)
  {
  }

  lemma LastAttempt(q: Pool, g: nat, k: nat, retries: nat)
    requires g < |q.guardians| && q.guardians[g].watch.Reopening? && !q.guardians[g].cancelled
    requires q.guardians[g].watch.left == retries && k <= retries
    requires q.guardians[g].watch.c < |q.conns| && q.info == Some(q.conns[q.guardians[g].watch.c].info)
    ensures var q' := Step(GuardianFailures(q, g, k, retries), GuardianAttempt(g, true), retries);
            if k == retries then Resting(q', g, retries) else Reconnected(q', g, q.guardians[g].watch.c, q.info)
  {
    GuardianCountsDown(q, g, k, retries);
    AttemptOutcome(GuardianFailures(q, g, k, retries), g, retries);
  }

  /** A live guardian that sees its client lost reconnects, while the lock is free, with
      the first of its attempts that succeeds; when all of them fail it rests and looks
      again, so it never stops. */
  lemma GuardianReconnects(evs: seq<Event>, retries: nat, g: nat, k: nat)
    requires var p := Run(evs, retries);
             && g < |p.guardians| && p.guardians[g].Alive() && p.guardians[g].watch.Watching?
             && !IsOpen(p, p.guardians[g].watch.c) && p.lock.None? && k <= retries
    ensures var p := Run(evs, retries);
            var p' := Step(GuardianFailures(Noticed(p, g, retries), g, k, retries), GuardianAttempt(g, true), retries);
            p.info.Some? &&
            if k == retries then Resting(p', g, retries) else Reconnected(p', g, |p.conns|, p.info)
  {
    RunKeepsInv(evs, retries);
    var p := Run(evs, retries);
    assert GuardianOk(p, g);
    NoticedReopens(p, g, retries);
    LastAttempt(Noticed(p, g, retries), g, k, retries);
  }

  lemma NoticedReopens(p: Pool, g: nat, retries: nat)
    requires Inv(p) && g < |p.guardians| && p.guardians[g].Alive() && p.guardians[g].watch.Watching?
    requires !IsOpen(p, p.guardians[g].watch.c) && p.lock.None? && p.info.Some?
    ensures var q := Noticed(p, g, retries);
            && |q.guardians| == |p.guardians| && q.guardians[g] == Guardian(Reopening(|p.conns|, retries), false)
            && |q.conns| == |p.conns| + 1 && q.conns[|p.conns|] == Conn(p.info.value, Fresh)
            && q.info == p.info && q.lock == Some(ByGuardian(g))
  {
    var p1 := Step(p, Detect(g), retries);
    assert p1.guardians[g] == Guardian(Pausing, false) && p1.info == p.info;
    var p2 := Step(p1, Wake(g), retries);
    assert p2.guardians[g] == Guardian(WantsLock(p.info.value), false) && p2.lock.None?;
  }

  /** A live guardian at the top of its loop goes on to watch the pooled client, and comes
      back to the top while that one lives. */
  lemma GuardianWatchesPooled(p: Pool, g: nat, c: nat, retries: nat)
    requires g < |p.guardians| && p.guardians[g] == Guardian(Top, false) && p.client == Some(c)
    ensures var p' := Step(p, Look(g), retries);
            && g < |p'.guardians| && p'.guardians[g] == Guardian(Watching(c), false)
            && g < |Step(p', Tick(g), retries).guardians|
            && Step(p', Tick(g), retries).guardians[g] == Guardian(Top, false)
  {
  }

  /** A live guardian stops only when its client is gone from the pool, when the watched
      listener ended by cancellation, when the connection is closed, or when a send has
      connected a new client, whose own guardian then takes over. */
  lemma GuardianStopsOnlyWhen(p: Pool, ev: Event, retries: nat, g: nat)
    requires g < |p.guardians| && p.guardians[g].Alive()
    ensures g < |Step(p, ev, retries).guardians|
    ensures !Step(p, ev, retries).guardians[g].Alive() ==>
              || (ev == Look(g) && p.client.None?)
              || (ev == Wake(g) && p.info.None?)
              || ev == LoseWatch(g)
              || ev == CloseConnection
              || (ev.Attempt? && ev.ok)
  {
  }
}

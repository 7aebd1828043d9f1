/** One user's slot in the connection pool (src/services/ws_manager.py): the pooled
    client, the two locks, the sends with their one retry, and the guardian tasks. Each
    event is one stretch of code between two awaits; connect and close are atomic. An
    event that is not enabled changes nothing. */
module Pool {
  import opened PyText
  import opened MappingStore

  /** Open means is_connected; Dropped means lost but closed by nobody yet. */
  datatype Link = Fresh | Open | Dropped | Closed
  {
    predicate HasSocket() { Open? || Dropped? }
  }

  datatype Conn = Conn(info: InstanceInfo, link: Link)

  datatype Owner = BySender(s: nat) | ByGuardian(g: nat)

  datatype Stage =
    | Queued
    | NeedsClient
    | Opening(c: nat, left: nat)
    | Ready(c: nat)
    | Waiting(c: nat)
    | Failing(c: nat)
    | Ended(ok: bool)

  /** A logical send; its position in `senders` stands for its idempotency key. `failed`
      is the client its first attempt failed on, once it is being retried. */
  datatype Sender = Sender(info: InstanceInfo, failed: Option<nat>, stage: Stage)
  {
    predicate Active() { !stage.Queued? && !stage.Ended? }
  }

  datatype Watch =
    | Top
    | Watching(c: nat)
    | Pausing
    | WantsLock(info: InstanceInfo)
    | Reopening(c: nat, left: nat)
    | Cooling
    | Gone

  /** A cancelled task takes no step but its own end. */
  datatype Guardian = Guardian(watch: Watch, cancelled: bool)
  {
    predicate Alive() { !watch.Gone? && !cancelled }
  }

  datatype Pool = Pool(
    client: Option<nat>,
    info: Option<InstanceInfo>,
    guardian: Option<nat>,
    lock: Option<Owner>,
    sendLock: Option<nat>,
    conns: seq<Conn>,
    senders: seq<Sender>,
    guardians: seq<Guardian>,
    order: seq<nat>,
    trace: seq<nat>)

  const EMPTY := Pool(None, None, None, None, None, [], [], [], [], [])

  /** A write either returns, or raises with the frame already on the wire or not. */
  datatype WriteOutcome = Sent | Lost(delivered: bool)

  datatype Event =
    | Send(info: InstanceInfo)
    | TakeSendLock(s: nat)
    | TakeLock(s: nat)
    | Attempt(s: nat, ok: bool)
    | Write(s: nat, outcome: WriteOutcome)
    | Answer(s: nat)
    | Error(s: nat)
    | Retry(s: nat)
    | Drop(c: nat)
    | Look(g: nat)
    | Tick(g: nat)
    | Detect(g: nat)
    | LoseWatch(g: nat)
    | Wake(g: nat)
    | GuardianTakesLock(g: nat)
    | GuardianAttempt(g: nat, ok: bool)
    | Rest(g: nat)
    | Cancelled(g: nat)
    | CloseConnection

  /*** Pieces of steps ***/

  predicate IsOpen(p: Pool, c: nat) {
    c < |p.conns| && p.conns[c].link.Open?
  }

  predicate PooledOpen(p: Pool) {
    p.client.Some? && IsOpen(p, p.client.value)
  }

  function SetLink(conns: seq<Conn>, c: nat, link: Link): seq<Conn> {
    if c < |conns| then conns[c := conns[c].(link := link)] else conns
  }

  function ClosePooled(conns: seq<Conn>, client: Option<nat>): seq<Conn> {
    if client.Some? then SetLink(conns, client.value, Closed) else conns
  }

  function CancelGuardian(guardians: seq<Guardian>, guardian: Option<nat>): seq<Guardian> {
    if guardian.Some? && guardian.value < |guardians| && !guardians[guardian.value].watch.Gone?
    then guardians[guardian.value := guardians[guardian.value].(cancelled := true)]
    else guardians
  }

  function WithNewGuardian(p: Pool): Pool {
    p.(guardians := CancelGuardian(p.guardians, p.guardian) + [Guardian(Top, false)],
       guardian := Some(|p.guardians|))
  }

  function SetStage(p: Pool, s: nat, stage: Stage): Pool
    requires s < |p.senders|
  {
    p.(senders := p.senders[s := p.senders[s].(stage := stage)])
  }

  function SetWatch(p: Pool, g: nat, watch: Watch): Pool
    requires g < |p.guardians|
  {
    p.(guardians := p.guardians[g := p.guardians[g].(watch := watch)])
  }

  function End(p: Pool, s: nat, ok: bool): Pool
    requires s < |p.senders|
  {
    SetStage(p, s, Ended(ok)).(sendLock := None)
  }

  /** An exception from the client: retried once, then raised. */
  function Fail(p: Pool, s: nat, c: nat): Pool
    requires s < |p.senders|
  {
    if p.senders[s].failed.Some? then End(p, s, false) else SetStage(p, s, Failing(c))
  }

  /*** Steps of a send ***/

  function OnTakeLock(p: Pool, s: nat, retries: nat): Pool
    requires s < |p.senders|
  {
    if PooledOpen(p) then SetStage(p, s, Ready(p.client.value))
    else
      SetStage(p, s, Opening(|p.conns|, retries))
      .(conns := ClosePooled(p.conns, p.client) + [Conn(p.senders[s].info, Fresh)], lock := Some(BySender(s)))
  }

  function OnAttempt(p: Pool, s: nat, ok: bool): Pool
    requires s < |p.senders| && p.senders[s].stage.Opening?
  {
    var c := p.senders[s].stage.c;
    if p.senders[s].stage.left == 0 then End(p, s, false).(lock := None)
    else if ok then
      WithNewGuardian(SetStage(p, s, Ready(c)))
      .(conns := SetLink(p.conns, c, Open), client := Some(c), info := Some(p.senders[s].info), lock := None)
    else SetStage(p, s, Opening(c, p.senders[s].stage.left - 1))
  }

  function OnWrite(p: Pool, s: nat, outcome: WriteOutcome): Pool
    requires s < |p.senders| && p.senders[s].stage.Ready?
  {
    var c := p.senders[s].stage.c;
    if !IsOpen(p, c) then Fail(p, s, c)
    else
      match outcome
      case Sent => SetStage(p, s, Waiting(c)).(trace := p.trace + [s])
      case Lost(delivered) => Fail(p, s, c).(trace := if delivered then p.trace + [s] else p.trace)
  }

  function OnRetry(p: Pool, s: nat): Pool
    requires s < |p.senders| && p.senders[s].stage.Failing?
  {
    p.(conns := SetLink(p.conns, p.senders[s].stage.c, Closed),
       senders := p.senders[s := p.senders[s].(failed := Some(p.senders[s].stage.c), stage := NeedsClient)])
  }

  /*** Steps of a guardian ***/

  function OnLook(p: Pool, g: nat): Pool
    requires g < |p.guardians|
  {
    SetWatch(p, g, if p.client.None? then Gone else Watching(p.client.value))
  }

  function OnWake(p: Pool, g: nat): Pool
    requires g < |p.guardians|
  {
    SetWatch(p, g, if p.info.None? then Gone else WantsLock(p.info.value))
  }

  function OnGuardianTakesLock(p: Pool, g: nat, retries: nat): Pool
    requires g < |p.guardians| && p.guardians[g].watch.WantsLock?
  {
    SetWatch(p, g, Reopening(|p.conns|, retries))
    .(conns := ClosePooled(p.conns, p.client) + [Conn(p.guardians[g].watch.info, Fresh)], lock := Some(ByGuardian(g)))
  }

  function OnGuardianAttempt(p: Pool, g: nat, ok: bool): Pool
    requires g < |p.guardians| && p.guardians[g].watch.Reopening?
  {
    var c := p.guardians[g].watch.c;
    if p.guardians[g].watch.left == 0 then SetWatch(p, g, Cooling).(lock := None)
    else if ok then SetWatch(p, g, Top).(conns := SetLink(p.conns, c, Open), client := Some(c), lock := None)
    else SetWatch(p, g, Reopening(c, p.guardians[g].watch.left - 1))
  }

  function StopAndAwait(guardians: seq<Guardian>, guardian: Option<nat>): seq<Guardian> {
    var cancelled := CancelGuardian(guardians, guardian);
    if guardian.Some? && guardian.value < |cancelled|
    then cancelled[guardian.value := cancelled[guardian.value].(watch := Gone)]
    else cancelled
  }

  /** The guardian is cancelled and awaited before the client goes. */
  function OnClose(p: Pool): Pool {
    p.(guardians := StopAndAwait(p.guardians, p.guardian), guardian := None,
       conns := ClosePooled(p.conns, p.client), client := None, info := None)
  }

  /*** The machine ***/

  predicate SenderAt(p: Pool, s: nat) { s < |p.senders| }

  predicate GuardianAt(p: Pool, g: nat) { g < |p.guardians| && p.guardians[g].Alive() }

  predicate Enabled(p: Pool, ev: Event) {
    match ev
    case Send(_) => true
    case TakeSendLock(s) => SenderAt(p, s) && p.senders[s].stage.Queued? && p.sendLock.None?
    case TakeLock(s) => SenderAt(p, s) && p.senders[s].stage.NeedsClient? && p.lock.None?
    case Attempt(s, _) => SenderAt(p, s) && p.senders[s].stage.Opening?
    case Write(s, _) => SenderAt(p, s) && p.senders[s].stage.Ready?
    case Answer(s) => SenderAt(p, s) && p.senders[s].stage.Waiting?
    case Error(s) => SenderAt(p, s) && p.senders[s].stage.Waiting?
    case Retry(s) => SenderAt(p, s) && p.senders[s].stage.Failing?
    case Drop(c) => IsOpen(p, c)
    case Look(g) => GuardianAt(p, g) && p.guardians[g].watch.Top?
    case Tick(g) => GuardianAt(p, g) && p.guardians[g].watch.Watching?
    case Detect(g) => GuardianAt(p, g) && p.guardians[g].watch.Watching? && !IsOpen(p, p.guardians[g].watch.c)
    case LoseWatch(g) => GuardianAt(p, g) && p.guardians[g].watch.Watching? && !IsOpen(p, p.guardians[g].watch.c)
    case Wake(g) => GuardianAt(p, g) && p.guardians[g].watch.Pausing?
    case GuardianTakesLock(g) => GuardianAt(p, g) && p.guardians[g].watch.WantsLock? && p.lock.None?
    case GuardianAttempt(g, _) => GuardianAt(p, g) && p.guardians[g].watch.Reopening?
    case Rest(g) => GuardianAt(p, g) && p.guardians[g].watch.Cooling?
    case Cancelled(g) => g < |p.guardians| && p.guardians[g].cancelled
    case CloseConnection =>
      p.lock.None? && p.sendLock.None? && forall s | 0 <= s < |p.senders| :: p.senders[s].stage.Ended?
  }

  function Step(p: Pool, ev: Event, retries: nat): Pool {
    if !Enabled(p, ev) then p
    else
      match ev
      case Send(info) => p.(senders := p.senders + [Sender(info, None, Queued)])
      case TakeSendLock(s) => SetStage(p, s, NeedsClient).(sendLock := Some(s), order := p.order + [s])
      case TakeLock(s) => OnTakeLock(p, s, retries)
      case Attempt(s, ok) => OnAttempt(p, s, ok)
      case Write(s, outcome) => OnWrite(p, s, outcome)
      case Answer(s) => End(p, s, true)
      case Error(s) => Fail(p, s, p.senders[s].stage.c)
      case Retry(s) => OnRetry(p, s)
      case Drop(c) => p.(conns := SetLink(p.conns, c, Dropped))
      case Look(g) => OnLook(p, g)
      case Tick(g) => SetWatch(p, g, Top)
      case Detect(g) => SetWatch(p, g, Pausing)
      case LoseWatch(g) => SetWatch(p, g, Gone)
      case Wake(g) => OnWake(p, g)
      case GuardianTakesLock(g) => OnGuardianTakesLock(p, g, retries)
      case GuardianAttempt(g, ok) => OnGuardianAttempt(p, g, ok)
      case Rest(g) => SetWatch(p, g, Top)
      case Cancelled(g) => SetWatch(p, g, Gone)
      case CloseConnection => OnClose(p)
  }

  function Run(evs: seq<Event>, retries: nat): Pool {
    if evs == [] then EMPTY else Step(Run(evs[..|evs| - 1], retries), evs[|evs| - 1], retries)
  }

  /*** Invariants ***/

  /** Only the pooled client has a socket, and the pooled client was connected once. */
  ghost predicate LinksOk(client: Option<nat>, conns: seq<Conn>) {
    && (client.Some? ==> client.value < |conns| && !conns[client.value].link.Fresh?)
    && (forall c | 0 <= c < |conns| :: conns[c].link.HasSocket() ==> client == Some(c))
  }

  /** The cached info is the one the pooled client was created with. */
  ghost predicate InfoOk(client: Option<nat>, info: Option<InstanceInfo>, conns: seq<Conn>) {
    && (client.Some? <==> info.Some?)
    && (client.Some? ==> client.value < |conns| && info == Some(conns[client.value].info))
  }

  /** A client being connected is new, and meanwhile nothing in the pool has a socket. */
  ghost predicate NewClient(p: Pool, c: nat, info: InstanceInfo) {
    && c < |p.conns| && p.conns[c] == Conn(info, Fresh)
    && (p.client.Some? ==> p.client.value < |p.conns| && p.conns[p.client.value].link.Closed?)
  }

  ghost predicate SenderOk(p: Pool, s: nat)
    requires s < |p.senders|
  {
    && (p.senders[s].stage.Opening? <==> p.lock == Some(BySender(s)))
    && (p.senders[s].Active() <==> p.sendLock == Some(s))
    && (p.senders[s].stage.Opening? ==> NewClient(p, p.senders[s].stage.c, p.senders[s].info))
    && (HasClient(p.senders[s].stage) ==> UsedClient(p, p.senders[s].stage.c))
    && RetryOk(p, p.senders[s])
  }

  /** A retry goes to another client: the failed one is closed for good. */
  ghost predicate RetryOk(p: Pool, sender: Sender) {
    sender.failed.Some? ==>
      && sender.failed.value < |p.conns| && p.conns[sender.failed.value].link.Closed?
      && (HasClient(sender.stage) ==> sender.stage.c != sender.failed.value)
  }

  predicate HasClient(stage: Stage) { stage.Ready? || stage.Waiting? || stage.Failing? }

  predicate UsedClient(p: Pool, c: nat) { c < |p.conns| && !p.conns[c].link.Fresh? }

  /** A guardian past its check found the pooled client lost, and nobody has replaced it. */
  ghost predicate GuardianOk(p: Pool, g: nat)
    requires g < |p.guardians|
  {
    var guardian := p.guardians[g];
    && (guardian.Alive() ==> p.guardian == Some(g))
    && (guardian.watch.Reopening? <==> p.lock == Some(ByGuardian(g)))
    && (guardian.watch.Reopening? ==>
          !guardian.cancelled && p.info.Some? && NewClient(p, guardian.watch.c, p.info.value))
    && (guardian.Alive() && guardian.watch.Watching? ==> p.client == Some(guardian.watch.c))
    && (guardian.Alive() && (guardian.watch.Pausing? || guardian.watch.WantsLock?) ==> !PooledOpen(p))
    && (guardian.Alive() && guardian.watch.WantsLock? ==> p.info == Some(guardian.watch.info))
  }

  ghost predicate OwnersOk(p: Pool) {
    && (p.sendLock.Some? ==> p.sendLock.value < |p.senders|)
    && (p.lock.Some? && p.lock.value.BySender? ==> p.lock.value.s < |p.senders|)
    && (p.lock.Some? && p.lock.value.ByGuardian? ==> p.lock.value.g < |p.guardians|)
    && (p.guardian.Some? ==> p.guardian.value < |p.guardians|)
  }

  ghost predicate Inv(p: Pool) {
    && LinksOk(p.client, p.conns)
    && InfoOk(p.client, p.info, p.conns)
    && OwnersOk(p)
    && (forall s | 0 <= s < |p.senders| :: SenderOk(p, s))
    && (forall g | 0 <= g < |p.guardians| :: GuardianOk(p, g))
  }

  lemma SendKeepsInv(p: Pool, info: InstanceInfo)
    requires Inv(p)
    ensures Inv(p.(senders := p.senders + [Sender(info, None, Queued)]))
  {
    var p' := p.(senders := p.senders + [Sender(info, None, Queued)]);
    forall s | 0 <= s < |p'.senders| ensures SenderOk(p', s) {
      if s < |p.senders| { assert SenderOk(p, s); }
    }
    forall g | 0 <= g < |p.guardians| ensures GuardianOk(p', g) { assert GuardianOk(p, g); }
  }

  /** Stage changes that leave the lock alone. */
  lemma StageKeepsInv(p: Pool, s: nat, sender: Sender, sendLock: Option<nat>)
    requires Inv(p) && s < |p.senders| && !p.senders[s].stage.Opening? && !sender.stage.Opening?
    requires p.sendLock == Some(s) || (p.sendLock.None? && sendLock == Some(s))
    requires sendLock == if sender.Active() then Some(s) else None
    requires HasClient(sender.stage) ==> UsedClient(p, sender.stage.c)
    requires RetryOk(p, sender)
    ensures Inv(p.(senders := p.senders[s := sender], sendLock := sendLock))
  {
    var p' := p.(senders := p.senders[s := sender], sendLock := sendLock);
    forall t | 0 <= t < |p'.senders| ensures SenderOk(p', t) { assert SenderOk(p, t); assert SenderOk(p, s); }
    forall g | 0 <= g < |p.guardians| ensures GuardianOk(p', g) { assert GuardianOk(p, g); }
  }

  lemma TakeLockKeepsInv(p: Pool, s: nat, retries: nat)
    requires Inv(p) && Enabled(p, TakeLock(s))
    ensures Inv(OnTakeLock(p, s, retries))
  {
    var p' := OnTakeLock(p, s, retries);
    assert SenderOk(p, s);
    forall t | 0 <= t < |p'.senders| ensures SenderOk(p', t) { assert SenderOk(p, t); }
    forall g | 0 <= g < |p.guardians| ensures GuardianOk(p', g) { assert GuardianOk(p, g); }
  }

  lemma GiveUpKeepsInv(p: Pool, s: nat)
    requires Inv(p) && s < |p.senders| && p.senders[s].stage.Opening?
    ensures Inv(End(p, s, false).(lock := None))
  {
    var p' := End(p, s, false).(lock := None);
    assert SenderOk(p, s);
    forall t | 0 <= t < |p'.senders| ensures SenderOk(p', t) { assert SenderOk(p, t); }
    forall g | 0 <= g < |p.guardians| ensures GuardianOk(p', g) { assert GuardianOk(p, g); }
  }

  lemma TryAgainKeepsInv(p: Pool, s: nat, left: nat)
    requires Inv(p) && s < |p.senders| && p.senders[s].stage.Opening?
    ensures Inv(SetStage(p, s, Opening(p.senders[s].stage.c, left)))
  {
    var p' := SetStage(p, s, Opening(p.senders[s].stage.c, left));
    assert SenderOk(p, s);
    forall t | 0 <= t < |p'.senders| ensures SenderOk(p', t) { assert SenderOk(p, t); }
    forall g | 0 <= g < |p.guardians| ensures GuardianOk(p', g) { assert GuardianOk(p, g); }
  }

  lemma ConnectedSenders(p: Pool, s: nat)
    requires Inv(p) && Enabled(p, Attempt(s, true)) && p.senders[s].stage.left > 0
    ensures var p' := OnAttempt(p, s, true);
            && |p'.senders| == |p.senders|
            && forall t | 0 <= t < |p'.senders| :: SenderOk(p', t)
  {
    var p' := OnAttempt(p, s, true);
    assert SenderOk(p, s);
    forall t | 0 <= t < |p'.senders| ensures SenderOk(p', t) { assert SenderOk(p, t); }
  }

  lemma ConnectedGuardians(p: Pool, s: nat)
    requires Inv(p) && Enabled(p, Attempt(s, true)) && p.senders[s].stage.left > 0
    ensures var p' := OnAttempt(p, s, true);
            && |p'.guardians| == |p.guardians| + 1
            && forall g | 0 <= g < |p'.guardians| :: GuardianOk(p', g)
  {
    var p' := OnAttempt(p, s, true);
    assert SenderOk(p, s);
    forall g | 0 <= g < |p'.guardians| ensures GuardianOk(p', g) {
      if g < |p.guardians| { assert GuardianOk(p, g); }
    }
  }

  lemma ConnectedLinks(p: Pool, s: nat)
    requires Inv(p) && Enabled(p, Attempt(s, true)) && p.senders[s].stage.left > 0
    ensures var p' := OnAttempt(p, s, true);
            LinksOk(p'.client, p'.conns) && InfoOk(p'.client, p'.info, p'.conns) && OwnersOk(p')
  {
    assert SenderOk(p, s);
  }

  lemma AttemptKeepsInv(p: Pool, s: nat, ok: bool)
    requires Inv(p) && Enabled(p, Attempt(s, ok))
    ensures Inv(OnAttempt(p, s, ok))
  {
    if p.senders[s].stage.left == 0 {
      GiveUpKeepsInv(p, s);
    } else if ok {
      ConnectedSenders(p, s);
      ConnectedGuardians(p, s);
      ConnectedLinks(p, s);
    } else {
      TryAgainKeepsInv(p, s, p.senders[s].stage.left - 1);
    }
  }

  /** A client may be lost or closed at any time by anyone. */
  lemma LinkLossKeepsInv(p: Pool, c: nat, link: Link)
    requires Inv(p) && (link.Closed? || (link.Dropped? && IsOpen(p, c)))
    requires c < |p.conns| && !p.conns[c].link.Fresh?
    ensures Inv(p.(conns := SetLink(p.conns, c, link)))
  {
    var p' := p.(conns := SetLink(p.conns, c, link));
    forall s | 0 <= s < |p.senders| ensures SenderOk(p', s) { assert SenderOk(p, s); }
    forall g | 0 <= g < |p.guardians| ensures GuardianOk(p', g) { assert GuardianOk(p, g); }
  }

  lemma WatchKeepsInv(p: Pool, g: nat, watch: Watch)
    requires Inv(p) && g < |p.guardians| && !p.guardians[g].watch.Reopening? && !watch.Reopening?
    requires !watch.Gone? ==> p.guardians[g].Alive()
    requires watch.Watching? ==> p.client == Some(watch.c)
    requires watch.Pausing? || watch.WantsLock? ==> !PooledOpen(p)
    requires watch.WantsLock? ==> p.info == Some(watch.info)
    ensures Inv(SetWatch(p, g, watch))
  {
    var p' := SetWatch(p, g, watch);
    forall s | 0 <= s < |p.senders| ensures SenderOk(p', s) { assert SenderOk(p, s); }
    forall h | 0 <= h < |p.guardians| ensures GuardianOk(p', h) { assert GuardianOk(p, h); }
  }

  lemma GuardianTakesLockKeepsInv(p: Pool, g: nat, retries: nat)
    requires Inv(p) && Enabled(p, GuardianTakesLock(g))
    ensures Inv(OnGuardianTakesLock(p, g, retries))
  {
    var p' := OnGuardianTakesLock(p, g, retries);
    assert GuardianOk(p, g);
    forall s | 0 <= s < |p.senders| ensures SenderOk(p', s) { assert SenderOk(p, s); }
    forall h | 0 <= h < |p.guardians| ensures GuardianOk(p', h) { assert GuardianOk(p, h); }
  }

  lemma GuardianAttemptKeepsInv(p: Pool, g: nat, ok: bool)
    requires Inv(p) && Enabled(p, GuardianAttempt(g, ok))
    ensures Inv(OnGuardianAttempt(p, g, ok))
  {
    var p' := OnGuardianAttempt(p, g, ok);
    assert GuardianOk(p, g);
    forall s | 0 <= s < |p.senders| ensures SenderOk(p', s) { assert SenderOk(p, s); }
    forall h | 0 <= h < |p.guardians| ensures GuardianOk(p', h) { assert GuardianOk(p, h); }
  }

  lemma CloseKeepsInv(p: Pool)
    requires Inv(p) && Enabled(p, CloseConnection)
    ensures Inv(OnClose(p))
  {
    var p' := OnClose(p);
    forall s | 0 <= s < |p.senders| ensures SenderOk(p', s) { assert SenderOk(p, s); }
    forall g | 0 <= g < |p'.guardians| ensures GuardianOk(p', g) { assert GuardianOk(p, g); }
  }

  lemma FailKeepsInv(p: Pool, s: nat, c: nat)
    requires Inv(p) && s < |p.senders| && HasClient(p.senders[s].stage) && c == p.senders[s].stage.c
    ensures Inv(Fail(p, s, c))
  {
    assert SenderOk(p, s);
    if p.senders[s].failed.Some? {
      StageKeepsInv(p, s, p.senders[s].(stage := Ended(false)), None);
    } else {
      StageKeepsInv(p, s, p.senders[s].(stage := Failing(c)), p.sendLock);
    }
  }

  lemma TraceAside(p: Pool, trace: seq<nat>, order: seq<nat>)
    requires Inv(p)
    ensures Inv(p.(trace := trace, order := order))
  {
    var p' := p.(trace := trace, order := order);
    forall s | 0 <= s < |p.senders| ensures SenderOk(p', s) { assert SenderOk(p, s); }
    forall g | 0 <= g < |p.guardians| ensures GuardianOk(p', g) { assert GuardianOk(p, g); }
  }

  lemma WriteKeepsInv(p: Pool, s: nat, outcome: WriteOutcome)
    requires Inv(p) && Enabled(p, Write(s, outcome))
    ensures Inv(OnWrite(p, s, outcome))
  {
    var c := p.senders[s].stage.c;
    assert SenderOk(p, s);
    FailKeepsInv(p, s, c);
    StageKeepsInv(p, s, p.senders[s].(stage := Waiting(c)), p.sendLock);
    TraceAside(Fail(p, s, c), p.trace + [s], p.order);
    TraceAside(SetStage(p, s, Waiting(c)), p.trace + [s], p.order);
  }

  lemma RetryKeepsInv(p: Pool, s: nat)
    requires Inv(p) && Enabled(p, Retry(s))
    ensures Inv(OnRetry(p, s))
  {
    assert SenderOk(p, s);
    var c := p.senders[s].stage.c;
    LinkLossKeepsInv(p, c, Closed);
    var p1 := p.(conns := SetLink(p.conns, c, Closed));
    assert SenderOk(p1, s);
    StageKeepsInv(p1, s, p.senders[s].(failed := Some(p.senders[s].stage.c), stage := NeedsClient), p.sendLock);
  }

  predicate IsSendStep(ev: Event) {
    || ev.Send? || ev.TakeSendLock? || ev.TakeLock? || ev.Attempt? || ev.Write?
    || ev.Answer? || ev.Error? || ev.Retry?
  }

  predicate IsGuardianStep(ev: Event) {
    || ev.Look? || ev.Tick? || ev.Detect? || ev.LoseWatch? || ev.Wake?
    || ev.GuardianTakesLock? || ev.GuardianAttempt? || ev.Rest? || ev.Cancelled?
  }

  lemma SendStepKeepsInv(p: Pool, ev: Event, retries: nat)
    requires Inv(p) && Enabled(p, ev)
    requires IsSendStep(ev)
    ensures Inv(Step(p, ev, retries))
  {
    match ev
    case Send(info) => SendKeepsInv(p, info);
    case TakeSendLock(s) =>
      assert SenderOk(p, s);
      StageKeepsInv(p, s, p.senders[s].(stage := NeedsClient), Some(s));
      TraceAside(SetStage(p, s, NeedsClient).(sendLock := Some(s)), p.trace, p.order + [s]);
    case TakeLock(s) => TakeLockKeepsInv(p, s, retries);
    case Attempt(s, ok) => AttemptKeepsInv(p, s, ok);
    case Write(s, outcome) => WriteKeepsInv(p, s, outcome);
    case Answer(s) =>
      assert SenderOk(p, s);
      StageKeepsInv(p, s, p.senders[s].(stage := Ended(true)), None);
    case Error(s) =>
      assert SenderOk(p, s);
      FailKeepsInv(p, s, p.senders[s].stage.c);
    case Retry(s) => RetryKeepsInv(p, s);
  }

  lemma GuardianStepKeepsInv(p: Pool, ev: Event, retries: nat)
    requires Inv(p) && Enabled(p, ev)
    requires IsGuardianStep(ev)
    ensures Inv(Step(p, ev, retries))
  {
    if ev.GuardianTakesLock? {
      GuardianTakesLockKeepsInv(p, ev.g, retries);
    } else if ev.GuardianAttempt? {
      GuardianAttemptKeepsInv(p, ev.g, ev.ok);
    } else {
      assert GuardianOk(p, ev.g);
      WatchKeepsInv(p, ev.g, Step(p, ev, retries).guardians[ev.g].watch);
    }
  }

  lemma StepKeepsInv(p: Pool, ev: Event, retries: nat)
    requires Inv(p)
    ensures Inv(Step(p, ev, retries))
  {
    if Enabled(p, ev) {
      if ev.Drop? {
        LinkLossKeepsInv(p, ev.c, Dropped);
      } else if ev.CloseConnection? {
        CloseKeepsInv(p);
      } else if IsSendStep(ev) {
        SendStepKeepsInv(p, ev, retries);
      } else {
        GuardianStepKeepsInv(p, ev, retries);
      }
    }
  }

  lemma {:induction false} RunKeepsInv(evs: seq<Event>, retries: nat)
    ensures Inv(Run(evs, retries))
  {
    if evs != [] {
      RunKeepsInv(evs[..|evs| - 1], retries);
      StepKeepsInv(Run(evs[..|evs| - 1], retries), evs[|evs| - 1], retries);
    }
  }

  /*** What holds in every reachable state ***/

  /** At most one client of a user has a socket, and it is the pooled one. */
  lemma OneSocket(evs: seq<Event>, retries: nat, c: nat, d: nat)
    requires c < |Run(evs, retries).conns| && d < |Run(evs, retries).conns|
    ensures var p := Run(evs, retries);
            && (p.conns[c].link.HasSocket() ==> p.client == Some(c))
            && (p.conns[c].link.HasSocket() && p.conns[d].link.HasSocket() ==> c == d)
  {
    RunKeepsInv(evs, retries);
  }

  /** At most one guardian is live and uncancelled: the recorded one. */
  lemma OneGuardian(evs: seq<Event>, retries: nat, g: nat, h: nat)
    requires g < |Run(evs, retries).guardians| && h < |Run(evs, retries).guardians|
    ensures var p := Run(evs, retries);
            && (p.guardians[g].Alive() ==> p.guardian == Some(g))
            && (p.guardians[g].Alive() && p.guardians[h].Alive() ==> g == h)
  {
    RunKeepsInv(evs, retries);
    var p := Run(evs, retries);
    assert GuardianOk(p, g) && GuardianOk(p, h);
  }

  /** Replacing a client cancels its guardian before the lock is released, so no step of
      any guardian closes, or takes out of the pool, a connected client. */
  lemma GuardiansSpareConnected(evs: seq<Event>, retries: nat, ev: Event, c: nat)
    requires IsGuardianStep(ev) && IsOpen(Run(evs, retries), c)
    ensures var p' := Step(Run(evs, retries), ev, retries);
            IsOpen(p', c) && p'.client == Some(c)
  {
    RunKeepsInv(evs, retries);
    var p := Run(evs, retries);
    if Enabled(p, ev) {
      assert GuardianOk(p, ev.g);
    }
  }

  /** A lock is held exactly while its send or connection attempt is under way: never by
      two tasks at once, and by none that has ended, failed or been cancelled. */
  lemma LocksExclude(evs: seq<Event>, retries: nat, s: nat, t: nat, g: nat)
    requires s < |Run(evs, retries).senders| && t < |Run(evs, retries).senders| && g < |Run(evs, retries).guardians|
    ensures var p := Run(evs, retries);
            && (p.sendLock == Some(s) <==> p.senders[s].Active())
            && (p.lock == Some(BySender(s)) <==> p.senders[s].stage.Opening?)
            && (p.lock == Some(ByGuardian(g)) <==> p.guardians[g].watch.Reopening?)
            && (p.guardians[g].watch.Reopening? ==> p.guardians[g].Alive())
            && (p.senders[s].Active() && p.senders[t].Active() ==> s == t)
            && !(p.senders[s].stage.Opening? && p.guardians[g].watch.Reopening?)
  {
    RunKeepsInv(evs, retries);
    var p := Run(evs, retries);
    assert SenderOk(p, s) && SenderOk(p, t) && GuardianOk(p, g);
  }

  /** The one retry of a send never goes to the client its first attempt failed on: that
      one was closed, and a closed client is never opened or pooled as connected again. */
  lemma RetryTakesAnotherClient(evs: seq<Event>, retries: nat, s: nat)
    requires s < |Run(evs, retries).senders| && Run(evs, retries).senders[s].failed.Some?
    ensures var p := Run(evs, retries);
            var sender := p.senders[s];
            && sender.failed.value < |p.conns| && p.conns[sender.failed.value].link.Closed?
            && (HasClient(sender.stage) ==> sender.stage.c != sender.failed.value)
  {
    RunKeepsInv(evs, retries);
    assert SenderOk(Run(evs, retries), s);
  }

  /** get_cached_info describes the pooled client whenever there is one. */
  lemma CachedInfoIsPooled(evs: seq<Event>, retries: nat)
    ensures var p := Run(evs, retries);
            && (p.client.Some? <==> p.info.Some?)
            && (p.client.Some? ==> p.client.value < |p.conns| && p.info == Some(p.conns[p.client.value].info))
  {
    RunKeepsInv(evs, retries);
  }

  /*** Why close_connection must wait for the sends ***/

  /** close_connection as it stands: it takes the pool lock only, and drops both lock
      objects whoever holds the other one. */
  function CloseAnyway(p: Pool): Pool {
    OnClose(p).(lock := None, sendLock := None)
  }

  ghost predicate SomeActive(p: Pool) {
    exists s :: 0 <= s < |p.senders| && p.senders[s].Active()
  }

  ghost predicate TwoActive(p: Pool) {
    exists s, t :: 0 <= s < t < |p.senders| && p.senders[s].Active() && p.senders[t].Active()
  }

  /** The next send to begin after it takes a new lock: it runs beside another send of
      the same user if and only if one was under way when the connection was closed. */
  lemma ClosingKeepsExclusionIff(evs: seq<Event>, retries: nat, info: InstanceInfo)
    requires Run(evs, retries).lock.None?
    ensures var p := Run(evs, retries);
            var next := Step(Step(CloseAnyway(p), Send(info), retries), TakeSendLock(|p.senders|), retries);
            TwoActive(next) <==> SomeActive(p)
  {
    RunKeepsInv(evs, retries);
    var p := Run(evs, retries);
    var n := |p.senders|;
    var next := Step(Step(CloseAnyway(p), Send(info), retries), TakeSendLock(n), retries);
    assert |next.senders| == n + 1 && next.senders[n].Active();
    assert forall s | 0 <= s < n :: next.senders[s] == p.senders[s];
    if s :| 0 <= s < n && p.senders[s].Active() {
      assert next.senders[s].Active();
    }
  }

  /** While no send is under way and the pool lock is free, it keeps every invariant. */
  lemma ClosingIdleKeepsInv(p: Pool)
    requires Inv(p) && p.lock.None? && !SomeActive(p)
    ensures Inv(CloseAnyway(p))
  {
    var p' := CloseAnyway(p);
    forall s | 0 <= s < |p'.senders| ensures SenderOk(p', s) { assert SenderOk(p, s); }
    forall g | 0 <= g < |p'.guardians| ensures GuardianOk(p', g) { assert GuardianOk(p, g); }
  }
}

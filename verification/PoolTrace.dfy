/** What the gateway sees of one user's sends (src/services/ws_manager.py): the trace of
    idempotency keys written over all connections, drops and retries. */
module PoolTrace {
  import opened PyText
  import opened MappingStore
  import opened Pool

  function Count(trace: seq<nat>, k: nat): nat {
    if trace == [] then 0
    else Count(trace[..|trace| - 1], k) + (if trace[|trace| - 1] == k then 1 else 0)
  }

  function Repeat(k: nat, n: nat): (r: seq<nat>)
    ensures |r| == n && forall i | 0 <= i < n :: r[i] == k
  {
    if n == 0 then [] else Repeat(k, n - 1) + [k]
  }

  /** One block per send in lock order, as long as the number of times it was written. */
  function Blocks(order: seq<nat>, trace: seq<nat>): seq<nat> {
    if order == [] then []
    else
      var k := order[|order| - 1];
      Blocks(order[..|order| - 1], trace) + Repeat(k, Count(trace, k))
  }

  /** The sends of `order` that were written at least once. */
  function WrittenOnce(order: seq<nat>, trace: seq<nat>): seq<nat> {
    if order == [] then []
    else
      var k := order[|order| - 1];
      var rest := WrittenOnce(order[..|order| - 1], trace);
      if Count(trace, k) > 0 then rest + [k] else rest
  }

  /** What a gateway that ignores repeated keys processes. */
  function Processed(trace: seq<nat>): seq<nat> {
    if trace == [] then []
    else
      var k := trace[|trace| - 1];
      var rest := Processed(trace[..|trace| - 1]);
      if k in trace[..|trace| - 1] then rest else rest + [k]
  }

  /** What one that remembers only the previous key processes. */
  function Squeezed(trace: seq<nat>): seq<nat> {
    if trace == [] then []
    else
      var k := trace[|trace| - 1];
      var rest := Squeezed(trace[..|trace| - 1]);
      if |trace| > 1 && trace[|trace| - 2] == k then rest else rest + [k]
  }

  ghost predicate Distinct(order: seq<nat>) {
    forall i, j | 0 <= i < j < |order| :: order[i] != order[j]
  }

  lemma {:induction false} CountInTrace(trace: seq<nat>, k: nat)
    ensures Count(trace, k) > 0 <==> k in trace
  {
    if trace != [] {
      CountInTrace(trace[..|trace| - 1], k);
      assert trace == trace[..|trace| - 1] + [trace[|trace| - 1]];
    }
  }

  lemma CountSnoc(trace: seq<nat>, s: nat, k: nat)
    ensures Count(trace + [s], k) == Count(trace, k) + (if s == k then 1 else 0)
  {
    assert (trace + [s])[..|trace|] == trace;
  }

  lemma {:induction false} BlocksAside(order: seq<nat>, trace: seq<nat>, s: nat)
    requires s !in order
    ensures Blocks(order, trace + [s]) == Blocks(order, trace)
    ensures WrittenOnce(order, trace + [s]) == WrittenOnce(order, trace)
  {
    if order != [] {
      BlocksAside(order[..|order| - 1], trace, s);
      CountSnoc(trace, s, order[|order| - 1]);
    }
  }

  /** Where a send may be, given how often it was written. */
  ghost predicate CountOk(sender: Sender, n: nat) {
    match sender.stage
    case Queued => n == 0 && !sender.failed.Some?
    case Waiting(_) => 1 <= n <= (if sender.failed.Some? then 2 else 1)
    case Ended(ok) => n <= 2 && (ok ==> n >= 1)
    case Failing(_) => n <= 1
    case _ => n <= (if sender.failed.Some? then 1 else 0)
  }

  /** Which sends are in the trace, and how often. */
  ghost predicate MembersOk(senders: seq<Sender>, order: seq<nat>, trace: seq<nat>) {
    && (forall s: nat :: s in order <==> s < |senders| && !senders[s].stage.Queued?)
    && (forall s | 0 <= s < |senders| :: CountOk(senders[s], Count(trace, s)))
    && (forall s | s in trace :: s in order)
  }

  /** The holder of the send lock is the last of the order, and its writes the trace's last. */
  ghost predicate TailOk(sendLock: Option<nat>, order: seq<nat>, trace: seq<nat>) {
    && (sendLock.Some? ==> order != [] && order[|order| - 1] == sendLock.value)
    && (order != [] && order[|order| - 1] in trace ==> trace[|trace| - 1] == order[|order| - 1])
  }

  ghost predicate ShapeOk(order: seq<nat>, trace: seq<nat>) {
    && Distinct(order)
    && trace == Blocks(order, trace)
    && Processed(trace) == WrittenOnce(order, trace)
    && Squeezed(trace) == WrittenOnce(order, trace)
  }

  ghost predicate TraceInv(senders: seq<Sender>, sendLock: Option<nat>, order: seq<nat>, trace: seq<nat>) {
    MembersOk(senders, order, trace) && TailOk(sendLock, order, trace) && ShapeOk(order, trace)
  }

  ghost predicate TracedOk(p: Pool) {
    TraceInv(p.senders, p.sendLock, p.order, p.trace)
  }

  lemma LastBlock(order: seq<nat>, trace: seq<nat>)
    requires order != []
    ensures Blocks(order, trace)
         == Blocks(order[..|order| - 1], trace) + Repeat(order[|order| - 1], Count(trace, order[|order| - 1]))
  {
  }

  lemma LongerBlock(before: seq<nat>, k: nat, n: nat)
    ensures before + Repeat(k, n + 1) == before + Repeat(k, n) + [k]
  {
  }

  lemma WriteAppends(order: seq<nat>, trace: seq<nat>, s: nat)
    requires Distinct(order) && order != [] && order[|order| - 1] == s
    requires trace == Blocks(order, trace)
    ensures trace + [s] == Blocks(order, trace + [s])
  {
    var before := order[..|order| - 1];
    BlocksAside(before, trace, s);
    CountSnoc(trace, s, s);
    LastBlock(order, trace);
    LastBlock(order, trace + [s]);
    LongerBlock(Blocks(before, trace), s, Count(trace, s));
  }

  lemma ProcessedSnoc(trace: seq<nat>, s: nat)
    ensures Processed(trace + [s]) == if s in trace then Processed(trace) else Processed(trace) + [s]
  {
    var longer := trace + [s];
    assert longer[..|trace|] == trace && longer[|trace|] == s;
  }

  lemma SqueezedSnoc(trace: seq<nat>, s: nat)
    ensures Squeezed(trace + [s])
         == if trace != [] && trace[|trace| - 1] == s then Squeezed(trace) else Squeezed(trace) + [s]
  {
    var longer := trace + [s];
    assert longer[..|trace|] == trace && longer[|trace|] == s;
    assert trace != [] ==> longer[|trace| - 1] == trace[|trace| - 1];
  }

  /** The last of the order enters the written ones with its first write. */
  lemma WrittenLast(order: seq<nat>, trace: seq<nat>, s: nat)
    requires Distinct(order) && order != [] && order[|order| - 1] == s
    ensures WrittenOnce(order, trace + [s])
         == if s in trace then WrittenOnce(order, trace) else WrittenOnce(order, trace) + [s]
  {
    BlocksAside(order[..|order| - 1], trace, s);
    CountSnoc(trace, s, s);
    CountInTrace(trace, s);
  }

  lemma WriteProcessed(order: seq<nat>, trace: seq<nat>, s: nat)
    requires Distinct(order) && order != [] && order[|order| - 1] == s
    requires s in trace ==> trace[|trace| - 1] == s
    requires Processed(trace) == WrittenOnce(order, trace) && Squeezed(trace) == WrittenOnce(order, trace)
    ensures Processed(trace + [s]) == WrittenOnce(order, trace + [s])
    ensures Squeezed(trace + [s]) == WrittenOnce(order, trace + [s])
  {
    ProcessedSnoc(trace, s);
    SqueezedSnoc(trace, s);
    WrittenLast(order, trace, s);
    assert trace != [] ==> trace[|trace| - 1] in trace;
  }

  lemma OrderAppends(order: seq<nat>, trace: seq<nat>, s: nat)
    requires s !in trace
    ensures Blocks(order + [s], trace) == Blocks(order, trace)
    ensures WrittenOnce(order + [s], trace) == WrittenOnce(order, trace)
  {
    assert (order + [s])[..|order|] == order;
    CountInTrace(trace, s);
    assert Blocks(order, trace) + [] == Blocks(order, trace);
  }

  lemma StageKeepsTrace(p: Pool, s: nat, sender: Sender, sendLock: Option<nat>)
    requires TracedOk(p) && s < |p.senders| && !p.senders[s].stage.Queued? && !sender.stage.Queued?
    requires CountOk(sender, Count(p.trace, s))
    requires sendLock.None? || sendLock == p.sendLock
    ensures TraceInv(p.senders[s := sender], sendLock, p.order, p.trace)
  {
  }

  lemma TakeSendLockKeepsTrace(p: Pool, s: nat)
    requires TracedOk(p) && s < |p.senders| && p.senders[s].stage.Queued?
    ensures TraceInv(p.senders[s := p.senders[s].(stage := NeedsClient)], Some(s), p.order + [s], p.trace)
  {
    CountOfSender(p, s);
    CountInTrace(p.trace, s);
    OrderKeepsMembers(p.senders, p.order, p.trace, s);
    OrderAppends(p.order, p.trace, s);
    assert s !in p.order;
  }

  lemma OrderKeepsMembers(senders: seq<Sender>, order: seq<nat>, trace: seq<nat>, s: nat)
    requires MembersOk(senders, order, trace) && s < |senders| && senders[s].stage.Queued?
    ensures MembersOk(senders[s := senders[s].(stage := NeedsClient)], order + [s], trace)
  {
  }

  lemma CountsAfterWrite(senders: seq<Sender>, trace: seq<nat>, s: nat, sender: Sender)
    requires s < |senders| && CountOk(sender, Count(trace, s) + 1)
    requires forall t | 0 <= t < |senders| :: CountOk(senders[t], Count(trace, t))
    ensures forall t | 0 <= t < |senders| :: CountOk(senders[s := sender][t], Count(trace + [s], t))
  {
    forall t | 0 <= t < |senders|
      ensures CountOk(senders[s := sender][t], Count(trace + [s], t))
    {
      CountSnoc(trace, s, t);
    }
  }

  lemma WriteKeepsMembers(senders: seq<Sender>, order: seq<nat>, trace: seq<nat>, s: nat, sender: Sender)
    requires MembersOk(senders, order, trace)
    requires s < |senders| && !senders[s].stage.Queued? && !sender.stage.Queued?
    requires CountOk(sender, Count(trace, s) + 1)
    ensures MembersOk(senders[s := sender], order, trace + [s])
  {
    CountsAfterWrite(senders, trace, s, sender);
  }

  lemma WriteKeepsTrace(p: Pool, s: nat, sender: Sender, sendLock: Option<nat>)
    requires TracedOk(p) && s < |p.senders| && !p.senders[s].stage.Queued? && !sender.stage.Queued?
    requires p.sendLock == Some(s) && (sendLock.None? || sendLock == p.sendLock)
    requires CountOk(sender, Count(p.trace, s) + 1)
    ensures TraceInv(p.senders[s := sender], sendLock, p.order, p.trace + [s])
  {
    WriteAppends(p.order, p.trace, s);
    WriteProcessed(p.order, p.trace, s);
    WriteKeepsMembers(p.senders, p.order, p.trace, s, sender);
  }

  /** The sender a step leaves behind: one that goes with n writes, n being counted
      after the step. */
  ghost predicate Moved(p: Pool, p': Pool, s: nat, n: nat) {
    && s < |p.senders| && |p'.senders| == |p.senders|
    && p'.senders == p.senders[s := p'.senders[s]]
    && !p'.senders[s].stage.Queued? && CountOk(p'.senders[s], n)
    && (p'.sendLock.None? || p'.sendLock == p.sendLock)
    && p'.order == p.order
  }

  lemma FailMoves(p: Pool, s: nat, c: nat, n: nat)
    requires s < |p.senders| && n <= (if p.senders[s].failed.Some? then 2 else 1)
    ensures Moved(p, Fail(p, s, c), s, n)
  {
  }

  lemma WriteMoves(p: Pool, s: nat, outcome: WriteOutcome, n: nat)
    requires Enabled(p, Write(s, outcome)) && CountOk(p.senders[s], n)
    ensures var p' := OnWrite(p, s, outcome);
            && (p'.trace == p.trace || p'.trace == p.trace + [s])
            && Moved(p, p', s, if p'.trace == p.trace then n else n + 1)
  {
    var c := p.senders[s].stage.c;
    FailMoves(p, s, c, n);
    FailMoves(p, s, c, n + 1);
    assert |p.trace + [s]| > |p.trace|;
  }

  lemma OnWriteKeepsTrace(p: Pool, s: nat, outcome: WriteOutcome)
    requires TracedOk(p) && p.sendLock == Some(s) && Enabled(p, Write(s, outcome))
    ensures TracedOk(OnWrite(p, s, outcome))
  {
    var p' := OnWrite(p, s, outcome);
    CountOfSender(p, s);
    WriteMoves(p, s, outcome, Count(p.trace, s));
    if p'.trace == p.trace {
      StageKeepsTrace(p, s, p'.senders[s], p'.sendLock);
    } else {
      WriteKeepsTrace(p, s, p'.senders[s], p'.sendLock);
    }
  }

  lemma CountOfSender(p: Pool, s: nat)
    requires TracedOk(p) && s < |p.senders|
    ensures CountOk(p.senders[s], Count(p.trace, s))
  {
  }

  lemma SendKeepsTrace(p: Pool, info: InstanceInfo)
    requires TracedOk(p)
    ensures TraceInv(p.senders + [Sender(info, None, Queued)], p.sendLock, p.order, p.trace)
  {
    assert |p.senders| !in p.order;
    CountInTrace(p.trace, |p.senders|);
  }

  lemma StageStepMoves(p: Pool, ev: Event, retries: nat, n: nat)
    requires Enabled(p, ev)
    requires ev.TakeLock? || ev.Attempt? || ev.Answer? || ev.Error? || ev.Retry?
    requires CountOk(p.senders[ev.s], n)
    ensures Moved(p, Step(p, ev, retries), ev.s, n) && Step(p, ev, retries).trace == p.trace
  {
  }

  lemma StageStepKeepsTrace(p: Pool, ev: Event, retries: nat)
    requires TracedOk(p) && Enabled(p, ev)
    requires ev.TakeLock? || ev.Attempt? || ev.Answer? || ev.Error? || ev.Retry?
    ensures TracedOk(Step(p, ev, retries))
  {
    CountOfSender(p, ev.s);
    StageStepMoves(p, ev, retries, Count(p.trace, ev.s));
    var p' := Step(p, ev, retries);
    StageKeepsTrace(p, ev.s, p'.senders[ev.s], p'.sendLock);
  }

  /** No other event touches the sends. */
  lemma OtherStepsAside(p: Pool, ev: Event, retries: nat)
    requires ev.Drop? || ev.CloseConnection? || IsGuardianStep(ev)
    ensures var p' := Step(p, ev, retries);
            p'.senders == p.senders && p'.sendLock == p.sendLock && p'.order == p.order && p'.trace == p.trace
  {
  }

  lemma StepKeepsTrace(p: Pool, ev: Event, retries: nat)
    requires TracedOk(p) && Inv(p)
    ensures TracedOk(Step(p, ev, retries))
  {
    if Enabled(p, ev) {
      if ev.Send? {
        SendKeepsTrace(p, ev.info);
      } else if ev.TakeSendLock? {
        TakeSendLockKeepsTrace(p, ev.s);
      } else if ev.Write? {
        assert SenderOk(p, ev.s);
        OnWriteKeepsTrace(p, ev.s, ev.outcome);
      } else if ev.TakeLock? || ev.Attempt? || ev.Answer? || ev.Error? || ev.Retry? {
        StageStepKeepsTrace(p, ev, retries);
      } else {
        OtherStepsAside(p, ev, retries);
      }
    }
  }

  lemma {:induction false} RunKeepsTrace(evs: seq<Event>, retries: nat)
    ensures TracedOk(Run(evs, retries))
  {
    if evs != [] {
      RunKeepsInv(evs[..|evs| - 1], retries);
      RunKeepsTrace(evs[..|evs| - 1], retries);
      StepKeepsTrace(Run(evs[..|evs| - 1], retries), evs[|evs| - 1], retries);
    }
  }

  /** Over any run of drops, failed writes, reconnects and closed connections: the keys
      reach the gateway in blocks of at most two, one block per send, in the order the
      sends took the send lock; and a gateway that ignores repeated keys, even one that
      remembers only the last, processes exactly the sends that were written. */
  lemma SendsProcessedAtMostOnce(evs: seq<Event>, retries: nat)
    ensures var p := Run(evs, retries);
            && Distinct(p.order)
            && p.trace == Blocks(p.order, p.trace)
            && (forall k: nat :: Count(p.trace, k) <= 2)
            && Processed(p.trace) == WrittenOnce(p.order, p.trace)
            && Squeezed(p.trace) == WrittenOnce(p.order, p.trace)
  {
    RunKeepsTrace(evs, retries);
    var p := Run(evs, retries);
    forall k: nat
      ensures Count(p.trace, k) <= 2
    {
      CountInTrace(p.trace, k);
      if k in p.trace {
        assert k in p.order;
        assert CountOk(p.senders[k], Count(p.trace, k));
      }
    }
  }

  /** A send that returned an answer was processed, and exactly once. */
  lemma AnsweredWasProcessedOnce(evs: seq<Event>, retries: nat, s: nat)
    requires s < |Run(evs, retries).senders| && Run(evs, retries).senders[s].stage == Ended(true)
    ensures Count(Processed(Run(evs, retries).trace), s) == 1
  {
    RunKeepsTrace(evs, retries);
    var p := Run(evs, retries);
    assert CountOk(p.senders[s], Count(p.trace, s));
    CountInTrace(p.trace, s);
    ProcessedOnce(p.trace, s);
  }

  lemma {:induction false} ProcessedOnce(trace: seq<nat>, k: nat)
    ensures Count(Processed(trace), k) == if k in trace then 1 else 0
  {
    if trace != [] {
      var last := trace[|trace| - 1];
      ProcessedOnce(trace[..|trace| - 1], k);
      assert trace == trace[..|trace| - 1] + [last];
      CountSnoc(Processed(trace[..|trace| - 1]), last, k);
    }
  }
}

/** The request/response engine of one OpenClaw connection
    (src/services/openclaw_client.py). One event is one stretch of code between two
    awaits; an event that cannot happen in a state leaves that state alone. */
module ClientEngine {
  import opened PyText
  import opened Aggregation
  import Scrub

  type RunId = string

  /** What a future is completed with: set_result or set_exception. */
  datatype Outcome = Reply(text: string, media: seq<string>) | Dropped

  datatype Future = Pending | Done(outcome: Outcome)

  /** Where the holder of _send_lock stands; Idle means the lock is free. */
  datatype Sender = Idle | Writing(id: nat) | Waiting(id: nat, fut: nat)

  /** How send_message ends. Crashed is the TypeError of shielding a cleared slot. */
  datatype Result = Answer(text: string, media: seq<string>) | TimedOut | ConnectionLost | Crashed | Aborted

  datatype Return = Return(id: nat, result: Result)

  /** A _delayed_fallback task still asleep, with what it captured. */
  datatype Fallback = Fallback(msg: MsgTag, runId: RunId, text: string)

  /** The inbound happening behind a completion. */
  datatype Trigger =
    | ChatFinal(m: ClawMessage)
    | Rejected(error: string)
    | LifecycleError(failedRun: RunId, error: string)
    | LifecycleEnd(endedRun: RunId, text: string)
    | Disconnect

  /** An inbound happening, with _active_msg_id at the moment it arrived. */
  datatype Arrival = Arrival(trigger: Trigger, active: Option<MsgTag>)

  /** Everything the engine gives out: completed futures and proactive callbacks. */
  datatype Out =
    | Completed(fut: nat, msg: MsgTag, outcome: Outcome, trigger: Trigger)
    | Proactively(m: ClawMessage)
    | Cron(summary: string)

  /** Buffers that left the aggregator: one by its timer, or all by cancel_all. */
  datatype Batch = Fired(id: MsgTag, group: seq<ClawMessage>) | Cleared(buffers: map<MsgTag, seq<ClawMessage>>)

  datatype Client = Client(
    listening: bool,
    activeMsgId: Option<MsgTag>,
    pendingFuture: Option<nat>,
    pendingFutureMsgId: Option<MsgTag>,
    timedOutMsgId: Option<MsgTag>,
    agentTexts: map<RunId, string>,
    agg: AggState,
    // the event loop
    sender: Sender,
    futures: seq<Future>,
    fallbacks: map<nat, Fallback>,
    nextFallback: nat,
    // history
    arrivals: seq<Arrival>,
    received: seq<ClawMessage>,
    batches: seq<Batch>,
    outs: seq<Out>,
    returned: seq<Return>)

  const START := Client(true, None, None, None, None, map[], EMPTY, Idle, [], map[], 0, [], [], [], [], [])

  datatype Config = Config(minLen: int, hasProactive: bool)

  datatype Event =
    | BeginSend
    | Written
    | Wake
    | TimeOut
    | Abort
    | Rejection(error: string)
    | AgentText(runId: RunId, text: string)
    | AgentTextExpires(runId: RunId)
    | AgentError(runId: RunId, error: string)
    | AgentEnd(runId: RunId)
    | FallbackFires(k: nat)
    | Chat(seqNo: int, state: string, text: string, runId: RunId, urls: seq<string>, single: string, ts: real)
    | DebounceFires(t: TimerId)
    | CronEvent(action: string, summary: string)
    | ListenerEnds
    | Close

  /*** Operations ***/

  /** `self._pending_future is not None and not self._pending_future.done()` */
  predicate PendingOpen(s: Client) {
    && s.pendingFuture.Some?
    && s.pendingFuture.value < |s.futures|
    && s.futures[s.pendingFuture.value].Pending?
  }

  function Complete(s: Client, outcome: Outcome, trigger: Trigger): Client
    requires PendingOpen(s)
  {
    var fut := s.pendingFuture.value;
    var msg := if s.pendingFutureMsgId.Some? then s.pendingFutureMsgId.value else Proactive;
    s.(futures := s.futures[fut := Done(outcome)],
       outs := s.outs + [Completed(fut, msg, outcome, trigger)])
  }

  function Arrive(s: Client, trigger: Trigger): Client {
    s.(arrivals := s.arrivals + [Arrival(trigger, s.activeMsgId)])
  }

  /** Taking the lock, with a fresh id and a fresh future of the same number. */
  function OnBegin(s: Client): Client {
    var id := |s.futures|;
    s.(activeMsgId := Some(Request(id)),
       pendingFuture := Some(id),
       pendingFutureMsgId := Some(Request(id)),
       futures := s.futures + [Pending],
       sender := Writing(id))
  }

  /** The `finally` of send_message, which also releases the lock. */
  function Finish(s: Client, id: nat, result: Result): Client {
    s.(activeMsgId := None, pendingFuture := None, pendingFutureMsgId := None,
       sender := Idle, returned := s.returned + [Return(id, result)])
  }

  /** The write has succeeded: the slot is read again and awaited. */
  function OnWritten(s: Client, id: nat): Client {
    if s.pendingFuture.None? then Finish(s, id, Crashed)
    else s.(sender := Waiting(id, s.pendingFuture.value))
  }

  function ResultOf(outcome: Outcome): Result {
    match outcome
    case Reply(text, media) => Answer(text, media)
    case Dropped => ConnectionLost
  }

  function OnTimeOut(s: Client, id: nat): Client {
    Finish(s.(timedOutMsgId := Some(Request(id))), id, TimedOut)
  }

  /** The slots are cleared even when their future was already completed. */
  function OnRejection(s: Client, error: string): Client {
    var s1 := Arrive(s, Rejected(error));
    ClearSlots(if PendingOpen(s1) then Complete(s1, Reply("[Error: " + error + "]", []), Rejected(error)) else s1)
  }

  function ClearSlots(s: Client): Client {
    s.(activeMsgId := None, pendingFuture := None, pendingFutureMsgId := None)
  }

  function AgentTextOf(s: Client, runId: RunId): string {
    if runId in s.agentTexts then s.agentTexts[runId] else ""
  }

  function ErrorText(existing: string, error: string): string {
    if existing != "" then existing + "\n\n\U{26A0}\U{FE0F} **Generation failure:** " + error
    else "[LLM error: " + error + "]"
  }

  function OnAgentError(s: Client, runId: RunId, error: string): Client {
    var s1 := Arrive(s, LifecycleError(runId, error));
    if s1.activeMsgId.Some? && PendingOpen(s1) then
      Complete(s1, Reply(ErrorText(AgentTextOf(s, runId), error), []), LifecycleError(runId, error))
    else s1
  }

  function OnAgentEnd(s: Client, runId: RunId): Client {
    var text := AgentTextOf(s, runId);
    var s1 := Arrive(s, LifecycleEnd(runId, text));
    if runId != "" && s1.activeMsgId.Some? && text != "" && PendingOpen(s1) then
      s1.(fallbacks := s1.fallbacks[s1.nextFallback := Fallback(s1.activeMsgId.value, runId, text)],
          nextFallback := s1.nextFallback + 1)
    else s1
  }

  function OnFallback(s: Client, k: nat): Client
    requires k in s.fallbacks
  {
    var f := s.fallbacks[k];
    var s1 := s.(fallbacks := s.fallbacks - {k});
    if PendingOpen(s1) && s1.pendingFutureMsgId == Some(f.msg) then
      Complete(s1, Reply(f.text, []), LifecycleEnd(f.runId, f.text))
    else s1
  }

  function TagOf(active: Option<MsgTag>): MsgTag {
    if active.Some? then active.value else Proactive
  }

  /** The message a chat event is turned into: the agent's own text wins over the
      gateway's, and a final loses its container paths. */
  function MessageOf(s: Client, seqNo: int, state: string, text: string, runId: RunId,
                     urls: seq<string>, single: string, ts: real): ClawMessage {
    var raw := if AgentTextOf(s, runId) != "" then AgentTextOf(s, runId) else text;
    if state == "final" then
      ClawMessage(TagOf(s.activeMsgId), seqNo, Scrub.FinalText(raw), state, ts, Scrub.MediaPaths(urls, single, raw))
    else
      ClawMessage(TagOf(s.activeMsgId), seqNo, raw, state, ts, [])
  }

  function OnChat(s: Client, m: ClawMessage): Client {
    if !m.IsFinal() then s
    else Arrive(s, ChatFinal(m)).(agg := AddEvent(s.agg, m), received := s.received + [m])
  }

  /** _route_aggregated_message */
  function Route(s: Client, m: ClawMessage, cfg: Config): Client {
    if PendingOpen(s) && s.pendingFutureMsgId == Some(m.msgId) && s.timedOutMsgId != s.pendingFutureMsgId then
      Complete(s, Reply(m.text, m.mediaPaths), ChatFinal(m))
    else
      s.(timedOutMsgId := if s.timedOutMsgId == Some(m.msgId) then None else s.timedOutMsgId,
         outs := if cfg.hasProactive && m.text != "" then s.outs + [Proactively(m)] else s.outs)
  }

  /** A debounce timer fires: the group leaves its buffer and its best goes out. */
  function OnDebounce(s: Client, t: TimerId, cfg: Config): Client
    requires t in s.agg.timers
  {
    var group := Popped(s.agg, t);
    var s1 := s.(agg := Finalize(s.agg, t), batches := s.batches + [Fired(s.agg.timers[t], group)]);
    var best := SelectBest(group, cfg.minLen);
    if best.Some? then Route(s1, best.value, cfg) else s1
  }

  function OnCron(s: Client, action: string, summary: string, cfg: Config): Client {
    if action == "removed" || summary == "" || !cfg.hasProactive then s
    else s.(outs := s.outs + [Cron(summary)])
  }

  /** The `finally` of _listen_loop. */
  function OnListenerEnds(s: Client): Client {
    var s1 := Arrive(s, Disconnect).(listening := false, agentTexts := map[]);
    if PendingOpen(s1) then Complete(s1, Dropped, Disconnect) else s1
  }

  /** close() up to its first await; the cancelled listener then ends. */
  function OnClose(s: Client): Client {
    s.(agg := CancelAll(s.agg), agentTexts := map[], batches := s.batches + [Cleared(s.agg.buffers)])
  }

  /*** Runs ***/

  predicate Enabled(s: Client, ev: Event) {
    match ev
    case BeginSend => s.sender.Idle?
    case Written => s.sender.Writing?
    case Wake => s.sender.Waiting? && s.sender.fut < |s.futures| && s.futures[s.sender.fut].Done?
    case TimeOut => s.sender.Waiting? && s.sender.fut < |s.futures| && s.futures[s.sender.fut].Pending?
    case Abort => !s.sender.Idle?
    case FallbackFires(k) => k in s.fallbacks
    case DebounceFires(t) => t in s.agg.timers
    case AgentTextExpires(_) => true
    case Close => true
    case _ => s.listening
  }

  function Step(s: Client, ev: Event, cfg: Config): Client {
    if !Enabled(s, ev) then s
    else
      match ev
      case BeginSend => OnBegin(s)
      case Written => OnWritten(s, s.sender.id)
      case Wake => Finish(s, s.sender.id, ResultOf(s.futures[s.sender.fut].outcome))
      case TimeOut => OnTimeOut(s, s.sender.id)
      case Abort => Finish(s, s.sender.id, Aborted)
      case Rejection(error) => OnRejection(s, error)
      case AgentText(runId, text) =>
        if text != "" && runId != "" then s.(agentTexts := s.agentTexts[runId := text]) else s
      case AgentTextExpires(runId) => s.(agentTexts := s.agentTexts - {runId})
      case AgentError(runId, error) => OnAgentError(s, runId, error)
      case AgentEnd(runId) => OnAgentEnd(s, runId)
      case FallbackFires(k) => OnFallback(s, k)
      case Chat(seqNo, state, text, runId, urls, single, ts) =>
        OnChat(s, MessageOf(s, seqNo, state, text, runId, urls, single, ts))
      case DebounceFires(t) => OnDebounce(s, t, cfg)
      case CronEvent(action, summary) => OnCron(s, action, summary, cfg)
      case ListenerEnds => OnListenerEnds(s)
      case Close => OnClose(s)
  }

  function Run(evs: seq<Event>, cfg: Config): Client {
    if evs == [] then START else Step(Run(evs[..|evs| - 1], cfg), evs[|evs| - 1], cfg)
  }

  /*** Invariants ***/

  /** The slots are filled together, by the sender alone, or all cleared. */
  ghost predicate SlotsInv(s: Client) {
    && s.activeMsgId == s.pendingFutureMsgId
    && (s.pendingFuture.Some? <==> s.pendingFutureMsgId.Some?)
    && (s.pendingFuture.Some? ==>
          && !s.sender.Idle?
          && s.pendingFuture.value == s.sender.id
          && s.pendingFutureMsgId == Some(Request(s.sender.id)))
    && (!s.sender.Idle? ==> s.sender.id < |s.futures|)
    && (s.sender.Waiting? ==> s.sender.fut == s.sender.id)
    && (s.timedOutMsgId.Some? ==>
          && s.timedOutMsgId.value.Request?
          && s.timedOutMsgId.value.id < |s.futures|
          && (s.sender.Idle? || s.timedOutMsgId.value.id != s.sender.id))
  }

  /** Cleared slots under a running send are the mark of a rejection. */
  ghost predicate RejectedInv(s: Client) {
    && (!s.sender.Idle? ==> (s.pendingFuture.None? <==> WasRejected(s.arrivals, s.sender.id)))
    && (forall i | 0 <= i < |s.arrivals| && s.arrivals[i].active.Some? && s.arrivals[i].active.value.Request? ::
          s.arrivals[i].active.value.id < |s.futures|)
  }

  /** A rejection arrived while this request was the active one. */
  ghost predicate WasRejected(arrivals: seq<Arrival>, id: nat) {
    exists i :: 0 <= i < |arrivals| && arrivals[i].trigger.Rejected? && arrivals[i].active == Some(Request(id))
  }

  /** A completion is recorded in its future, and goes back to an event that arrived
      while its request was the active one. */
  ghost predicate OutsInv(s: Client) {
    && (forall i | 0 <= i < |s.outs| && s.outs[i].Completed? :: CompletionOk(s.futures, s.arrivals, s.outs[i]))
    && (forall i, j | 0 <= i < j < |s.outs| && s.outs[i].Completed? && s.outs[j].Completed? ::
          s.outs[i].fut != s.outs[j].fut)
  }

  ghost predicate CompletionOk(futures: seq<Future>, arrivals: seq<Arrival>, c: Out)
    requires c.Completed?
  {
    && c.fut < |futures|
    && futures[c.fut] == Done(c.outcome)
    && c.msg == Request(c.fut)
    && Arrival(c.trigger, Some(c.msg)) in arrivals
    && Fits(c.trigger, c.outcome)
  }

  /** What each of the five resolvers completes a future with. */
  ghost predicate Fits(trigger: Trigger, outcome: Outcome) {
    match trigger
    case ChatFinal(m) => outcome == Reply(m.text, m.mediaPaths)
    case Rejected(error) => outcome == Reply("[Error: " + error + "]", [])
    case LifecycleError(_, error) =>
      outcome.Reply? && outcome.media == [] && exists existing :: outcome.text == ErrorText(existing, error)
    case LifecycleEnd(_, text) => outcome == Reply(text, [])
    case Disconnect => outcome == Dropped
  }

  /** A waiting sender whose slots were cleared has something to wake up to. */
  ghost predicate WaitInv(s: Client) {
    s.sender.Waiting? && s.pendingFuture.None? ==> s.sender.fut < |s.futures| && s.futures[s.sender.fut].Done?
  }

  /** What is still to come has its arrival on record. */
  ghost predicate SourcesInv(s: Client) {
    && s.agg.Inv()
    && (forall id, m | id in s.agg.buffers && m in s.agg.buffers[id] :: SourceOk(s.arrivals, m))
    && (forall k | k in s.fallbacks :: k < s.nextFallback && FallbackOk(s.arrivals, s.fallbacks[k]))
  }

  ghost predicate SourceOk(arrivals: seq<Arrival>, m: ClawMessage) {
    && Strip(m.text) == m.text
    && (m.msgId.Request? ==> Arrival(ChatFinal(m), Some(m.msgId)) in arrivals)
  }

  ghost predicate FallbackOk(arrivals: seq<Arrival>, f: Fallback) {
    Arrival(LifecycleEnd(f.runId, f.text), Some(f.msg)) in arrivals
  }

  /** What send_message returned is what its own future was completed with. */
  ghost predicate ReturnsInv(s: Client) {
    && (forall i | 0 <= i < |s.returned| :: ReturnOk(s.futures, s.sender, s.returned[i]))
    && (forall i, j | 0 <= i < j < |s.returned| :: s.returned[i].id != s.returned[j].id)
  }

  ghost predicate ReturnOk(futures: seq<Future>, sender: Sender, r: Return) {
    && r.id < |futures|
    && (!sender.Idle? ==> r.id != sender.id)
    && (r.result.Answer? ==> futures[r.id] == Done(Reply(r.result.text, r.result.media)))
    && (r.result.ConnectionLost? ==> futures[r.id] == Done(Dropped))
  }

  ghost predicate Inv(s: Client) {
    SlotsInv(s) && WaitInv(s) && RejectedInv(s) && OutsInv(s) && SourcesInv(s) && ReturnsInv(s)
  }

  /*** Every step keeps them ***/

  lemma ArriveKeepsSources(s: Client, trigger: Trigger)
    requires OutsInv(s) && SourcesInv(s)
    ensures OutsInv(Arrive(s, trigger)) && SourcesInv(Arrive(s, trigger))
    ensures Arrival(trigger, s.activeMsgId) in Arrive(s, trigger).arrivals
  {
    var arrivals := Arrive(s, trigger).arrivals;
    assert forall x | x in s.arrivals :: x in arrivals;
    assert arrivals[|s.arrivals|] == Arrival(trigger, s.activeMsgId);
    forall id, m | id in s.agg.buffers && m in s.agg.buffers[id]
      ensures SourceOk(arrivals, m)
    {
      assert SourceOk(s.arrivals, m);
    }
  }

  lemma RejectedSnoc(arrivals: seq<Arrival>, x: Arrival, id: nat)
    ensures WasRejected(arrivals + [x], id) <==>
              WasRejected(arrivals, id) || (x.trigger.Rejected? && x.active == Some(Request(id)))
  {
    var longer := arrivals + [x];
    assert longer[|arrivals|] == x;
    assert forall i | 0 <= i < |arrivals| :: longer[i] == arrivals[i];
  }

  lemma ArriveKeepsInv(s: Client, trigger: Trigger)
    requires Inv(s) && !trigger.Rejected?
    ensures Inv(Arrive(s, trigger))
    ensures Arrival(trigger, s.activeMsgId) in Arrive(s, trigger).arrivals
  {
    ArriveKeepsSources(s, trigger);
    if !s.sender.Idle? {
      RejectedSnoc(s.arrivals, Arrival(trigger, s.activeMsgId), s.sender.id);
    }
  }

  lemma CompleteKeepsOuts(s: Client, outcome: Outcome, trigger: Trigger)
    requires SlotsInv(s) && OutsInv(s) && PendingOpen(s)
    requires Arrival(trigger, s.pendingFutureMsgId) in s.arrivals && Fits(trigger, outcome)
    ensures OutsInv(Complete(s, outcome, trigger))
  {
    forall i | 0 <= i < |s.outs| && s.outs[i].Completed?
      ensures s.outs[i].fut != s.pendingFuture.value
    {
      assert CompletionOk(s.futures, s.arrivals, s.outs[i]);
    }
  }

  lemma CompleteKeepsReturns(s: Client, outcome: Outcome, trigger: Trigger)
    requires SlotsInv(s) && ReturnsInv(s) && PendingOpen(s)
    ensures ReturnsInv(Complete(s, outcome, trigger))
  {
    forall i | 0 <= i < |s.returned|
      ensures ReturnOk(Complete(s, outcome, trigger).futures, s.sender, s.returned[i])
    {
      assert ReturnOk(s.futures, s.sender, s.returned[i]);
    }
  }

  lemma CompleteKeepsInv(s: Client, outcome: Outcome, trigger: Trigger)
    requires Inv(s) && PendingOpen(s)
    requires Arrival(trigger, s.pendingFutureMsgId) in s.arrivals && Fits(trigger, outcome)
    ensures Inv(Complete(s, outcome, trigger))
  {
    CompleteKeepsOuts(s, outcome, trigger);
    CompleteKeepsReturns(s, outcome, trigger);
  }

  lemma BeginKeepsInv(s: Client)
    requires Inv(s) && s.sender.Idle?
    ensures Inv(OnBegin(s))
  {
    var id := |s.futures|;
    forall i | 0 <= i < |s.returned|
      ensures ReturnOk(OnBegin(s).futures, OnBegin(s).sender, s.returned[i])
    {
      assert ReturnOk(s.futures, s.sender, s.returned[i]);
    }
    forall i | 0 <= i < |s.outs| && s.outs[i].Completed?
      ensures s.outs[i].fut != id && CompletionOk(OnBegin(s).futures, s.arrivals, s.outs[i])
    {
      assert CompletionOk(s.futures, s.arrivals, s.outs[i]);
    }
  }

  lemma FinishKeepsInv(s: Client, result: Result)
    requires Inv(s) && !s.sender.Idle?
    requires ReturnOk(s.futures, Idle, Return(s.sender.id, result))
    ensures Inv(Finish(s, s.sender.id, result))
    ensures result.TimedOut? ==> Inv(OnTimeOut(s, s.sender.id))
  {
    forall i | 0 <= i < |s.returned|
      ensures s.returned[i].id != s.sender.id && ReturnOk(s.futures, Idle, s.returned[i])
    {
      assert ReturnOk(s.futures, s.sender, s.returned[i]);
    }
  }

  lemma ClearKeepsInv(s: Client)
    requires SlotsInv(s) && WaitInv(s) && OutsInv(s) && SourcesInv(s) && ReturnsInv(s) && !PendingOpen(s)
    ensures var s' := ClearSlots(s);
            SlotsInv(s') && WaitInv(s') && OutsInv(s') && SourcesInv(s') && ReturnsInv(s')
  {
  }

  lemma RejectionIsRecorded(s: Client, error: string)
    requires SlotsInv(s) && RejectedInv(s)
    ensures RejectedInv(OnRejection(s, error))
  {
    if !s.sender.Idle? {
      RejectedSnoc(s.arrivals, Arrival(Rejected(error), s.activeMsgId), s.sender.id);
    }
  }

  lemma RejectionKeepsInv(s: Client, error: string)
    requires Inv(s)
    ensures Inv(OnRejection(s, error))
  {
    RejectionIsRecorded(s, error);
    ArriveKeepsSources(s, Rejected(error));
    RejectionKeepsRest(Arrive(s, Rejected(error)), error);
  }

  lemma RejectionKeepsRest(s: Client, error: string)
    requires SlotsInv(s) && WaitInv(s) && OutsInv(s) && SourcesInv(s) && ReturnsInv(s)
    requires Arrival(Rejected(error), s.activeMsgId) in s.arrivals
    ensures var outcome := Reply("[Error: " + error + "]", []);
            var s' := ClearSlots(if PendingOpen(s) then Complete(s, outcome, Rejected(error)) else s);
            SlotsInv(s') && WaitInv(s') && OutsInv(s') && SourcesInv(s') && ReturnsInv(s')
  {
    if PendingOpen(s) {
      var outcome := Reply("[Error: " + error + "]", []);
      CompleteKeepsOuts(s, outcome, Rejected(error));
      CompleteKeepsReturns(s, outcome, Rejected(error));
      ClearKeepsInv(Complete(s, outcome, Rejected(error)));
    } else {
      ClearKeepsInv(s);
    }
  }

  lemma AgentErrorKeepsInv(s: Client, runId: RunId, error: string)
    requires Inv(s)
    ensures Inv(OnAgentError(s, runId, error))
  {
    ArriveKeepsInv(s, LifecycleError(runId, error));
    var s1 := Arrive(s, LifecycleError(runId, error));
    if s1.activeMsgId.Some? && PendingOpen(s1) {
      CompleteKeepsInv(s1, Reply(ErrorText(AgentTextOf(s, runId), error), []), LifecycleError(runId, error));
    }
  }

  lemma AgentEndKeepsInv(s: Client, runId: RunId)
    requires Inv(s)
    ensures Inv(OnAgentEnd(s, runId))
  {
    ArriveKeepsInv(s, LifecycleEnd(runId, AgentTextOf(s, runId)));
  }

  lemma FallbackKeepsInv(s: Client, k: nat)
    requires Inv(s) && k in s.fallbacks
    ensures Inv(OnFallback(s, k))
  {
    var f := s.fallbacks[k];
    assert FallbackOk(s.arrivals, f);
    var s1 := s.(fallbacks := s.fallbacks - {k});
    if PendingOpen(s1) && s1.pendingFutureMsgId == Some(f.msg) {
      CompleteKeepsInv(s1, Reply(f.text, []), LifecycleEnd(f.runId, f.text));
    }
  }

  lemma BufferAdds(arrivals: seq<Arrival>, agg: AggState, m: ClawMessage, id: MsgTag, x: ClawMessage)
    requires forall i, y | i in agg.buffers && y in agg.buffers[i] :: SourceOk(arrivals, y)
    requires SourceOk(arrivals, m) && id in AddEvent(agg, m).buffers && x in AddEvent(agg, m).buffers[id]
    ensures SourceOk(arrivals, x)
  {
    AddEventMembers(agg, m);
  }

  /** A buffered final has its arrival on record. */
  lemma AddEventKeepsSources(s: Client, m: ClawMessage)
    requires SourcesInv(s) && SourceOk(s.arrivals, m)
    ensures SourcesInv(s.(agg := AddEvent(s.agg, m)))
  {
    AddEventKeepsInv(s.agg, m);
    forall id, x | id in AddEvent(s.agg, m).buffers && x in AddEvent(s.agg, m).buffers[id]
      ensures SourceOk(s.arrivals, x)
    {
      BufferAdds(s.arrivals, s.agg, m, id, x);
    }
  }

  lemma ArrivedIsSource(s: Client, m: ClawMessage)
    requires SlotsInv(s) && m.msgId == TagOf(s.activeMsgId) && Strip(m.text) == m.text
    ensures SourceOk(Arrive(s, ChatFinal(m)).arrivals, m)
  {
    assert Arrive(s, ChatFinal(m)).arrivals[|s.arrivals|] == Arrival(ChatFinal(m), s.activeMsgId);
  }

  lemma BufferKeepsInv(s: Client, m: ClawMessage)
    requires Inv(s) && SourceOk(s.arrivals, m)
    ensures Inv(s.(agg := AddEvent(s.agg, m), received := s.received + [m]))
  {
    AddEventKeepsSources(s, m);
  }

  lemma ChatKeepsInv(s: Client, m: ClawMessage)
    requires Inv(s) && m.msgId == TagOf(s.activeMsgId) && Strip(m.text) == m.text
    ensures Inv(OnChat(s, m))
  {
    if m.IsFinal() {
      ArriveKeepsInv(s, ChatFinal(m));
      ArrivedIsSource(s, m);
      BufferKeepsInv(Arrive(s, ChatFinal(m)), m);
    }
  }

  lemma CallbackKeepsInv(s: Client, timedOut: Option<MsgTag>, outs: seq<Out>)
    requires Inv(s) && (timedOut == s.timedOutMsgId || timedOut.None?)
    requires outs == s.outs || (outs != [] && outs[..|outs| - 1] == s.outs && outs[|outs| - 1].Proactively?)
    ensures Inv(s.(timedOutMsgId := timedOut, outs := outs))
  {
  }

  lemma RouteKeepsInv(s: Client, m: ClawMessage, cfg: Config)
    requires Inv(s) && SourceOk(s.arrivals, m)
    ensures Inv(Route(s, m, cfg))
  {
    if PendingOpen(s) && s.pendingFutureMsgId == Some(m.msgId) && s.timedOutMsgId != s.pendingFutureMsgId {
      CompleteKeepsInv(s, Reply(m.text, m.mediaPaths), ChatFinal(m));
    } else {
      CallbackKeepsInv(s, Route(s, m, cfg).timedOutMsgId, Route(s, m, cfg).outs);
    }
  }

  lemma DebounceKeepsInv(s: Client, t: TimerId, cfg: Config)
    requires Inv(s) && t in s.agg.timers
    ensures Inv(OnDebounce(s, t, cfg))
  {
    var group := Popped(s.agg, t);
    FinalizeKeepsInv(s.agg, t);
    var s1 := s.(agg := Finalize(s.agg, t), batches := s.batches + [Fired(s.agg.timers[t], group)]);
    SelectBestSound(group, cfg.minLen);
    var best := SelectBest(group, cfg.minLen);
    if best.Some? {
      assert SourceOk(s.arrivals, best.value);
      RouteKeepsInv(s1, best.value, cfg);
    }
  }

  lemma ListenerEndsKeepsInv(s: Client)
    requires Inv(s)
    ensures Inv(OnListenerEnds(s))
  {
    ArriveKeepsInv(s, Disconnect);
    var s1 := Arrive(s, Disconnect).(listening := false, agentTexts := map[]);
    if PendingOpen(s1) {
      CompleteKeepsInv(s1, Dropped, Disconnect);
    }
  }

  lemma MessageIsStripped(s: Client, seqNo: int, state: string, text: string, runId: RunId,
                          urls: seq<string>, single: string, ts: real)
    ensures var m := MessageOf(s, seqNo, state, text, runId, urls, single, ts);
            m.IsFinal() ==> Strip(m.text) == m.text
  {
  }

  predicate IsSenderStep(ev: Event) {
    ev.BeginSend? || ev.Written? || ev.Wake? || ev.TimeOut? || ev.Abort?
  }

  lemma SenderStepKeepsInv(s: Client, ev: Event, cfg: Config)
    requires Inv(s) && Enabled(s, ev) && IsSenderStep(ev)
    ensures Inv(Step(s, ev, cfg))
  {
    match ev
    case BeginSend => BeginKeepsInv(s);
    case Written => if s.pendingFuture.None? { FinishKeepsInv(s, Crashed); }
    case Wake => FinishKeepsInv(s, ResultOf(s.futures[s.sender.fut].outcome));
    case TimeOut => FinishKeepsInv(s, TimedOut);
    case Abort => FinishKeepsInv(s, Aborted);
  }

  lemma ChatEventKeepsInv(s: Client, ev: Event)
    requires Inv(s) && ev.Chat?
    ensures Inv(OnChat(s, MessageOf(s, ev.seqNo, ev.state, ev.text, ev.runId, ev.urls, ev.single, ev.ts)))
  {
    var m := MessageOf(s, ev.seqNo, ev.state, ev.text, ev.runId, ev.urls, ev.single, ev.ts);
    if m.IsFinal() {
      MessageIsStripped(s, ev.seqNo, ev.state, ev.text, ev.runId, ev.urls, ev.single, ev.ts);
      ChatKeepsInv(s, m);
    }
  }

  lemma CronKeepsInv(s: Client, action: string, summary: string, cfg: Config)
    requires Inv(s)
    ensures Inv(OnCron(s, action, summary, cfg))
  {
  }

  lemma CloseKeepsInv(s: Client)
    requires Inv(s)
    ensures Inv(OnClose(s))
  {
    CancelAllKeepsInv(s.agg);
  }

  lemma StepKeepsInv(s: Client, ev: Event, cfg: Config)
    requires Inv(s)
    ensures Inv(Step(s, ev, cfg))
  {
    if Enabled(s, ev) {
      match ev {
        case Rejection(error) => RejectionKeepsInv(s, error);
        case AgentText(runId, text) =>
        case AgentTextExpires(runId) =>
        case AgentError(runId, error) => AgentErrorKeepsInv(s, runId, error);
        case AgentEnd(runId) => AgentEndKeepsInv(s, runId);
        case FallbackFires(k) => FallbackKeepsInv(s, k);
        case Chat(_, _, _, _, _, _, _) => ChatEventKeepsInv(s, ev);
        case DebounceFires(t) => DebounceKeepsInv(s, t, cfg);
        case CronEvent(action, summary) => CronKeepsInv(s, action, summary, cfg);
        case ListenerEnds => ListenerEndsKeepsInv(s);
        case Close => CloseKeepsInv(s);
        case _ => SenderStepKeepsInv(s, ev, cfg);
      }
    }
  }

  lemma {:induction false} RunKeepsInv(evs: seq<Event>, cfg: Config)
    ensures Inv(Run(evs, cfg))
  {
    if evs != [] {
      RunKeepsInv(evs[..|evs| - 1], cfg);
      StepKeepsInv(Run(evs[..|evs| - 1], cfg), evs[|evs| - 1], cfg);
    }
  }

  /*** What every run promises about requests ***/

  /** The three slots agree, are empty whenever the lock is free, and never name the
      request that timed out last. */
  lemma SlotsAgree(evs: seq<Event>, cfg: Config)
    ensures var s := Run(evs, cfg);
            && s.activeMsgId == s.pendingFutureMsgId
            && (s.pendingFuture.Some? <==> s.pendingFutureMsgId.Some?)
            && (s.sender.Idle? ==> s.pendingFuture.None?)
            && (s.pendingFutureMsgId.Some? ==> s.pendingFutureMsgId != s.timedOutMsgId)
  {
    RunKeepsInv(evs, cfg);
  }

  /** No future is completed twice, whichever of the five resolvers race for it. */
  lemma CompletedAtMostOnce(evs: seq<Event>, cfg: Config, i: nat, j: nat)
    requires i < |Run(evs, cfg).outs| && j < |Run(evs, cfg).outs|
    requires Run(evs, cfg).outs[i].Completed? && Run(evs, cfg).outs[j].Completed?
    requires Run(evs, cfg).outs[i].fut == Run(evs, cfg).outs[j].fut
    ensures i == j
  {
    RunKeepsInv(evs, cfg);
  }

  /** The event behind the completion of request m arrived while m was active, and the
      future was completed with what that event carries. */
  lemma CompletedByOwnEvent(evs: seq<Event>, cfg: Config, out: Out)
    requires out in Run(evs, cfg).outs && out.Completed?
    ensures out.msg == Request(out.fut)
    ensures Arrival(out.trigger, Some(out.msg)) in Run(evs, cfg).arrivals
    ensures Fits(out.trigger, out.outcome)
  {
    RunKeepsInv(evs, cfg);
    var s := Run(evs, cfg);
    var i :| 0 <= i < |s.outs| && s.outs[i] == out;
    assert CompletionOk(s.futures, s.arrivals, s.outs[i]);
  }

  /** Every completed future has its completion on record. */
  ghost predicate RecordedInv(s: Client) {
    forall f | 0 <= f < |s.futures| && s.futures[f].Done? :: Recorded(s.outs, f)
  }

  ghost predicate Recorded(outs: seq<Out>, f: int) {
    exists i :: 0 <= i < |outs| && outs[i].Completed? && outs[i].fut == f
  }

  lemma RecordKept(outs: seq<Out>, more: seq<Out>, f: int)
    requires outs <= more && Recorded(outs, f)
    ensures Recorded(more, f)
  {
    var i :| 0 <= i < |outs| && outs[i].Completed? && outs[i].fut == f;
    assert more[i] == outs[i];
  }

  /** Steps that complete nothing new keep the record. */
  lemma QuietKeepsRecord(s: Client, s': Client)
    requires RecordedInv(s) && s.outs <= s'.outs
    requires forall f | 0 <= f < |s'.futures| && s'.futures[f].Done? :: f < |s.futures| && s.futures[f].Done?
    ensures RecordedInv(s')
  {
    forall f | 0 <= f < |s'.futures| && s'.futures[f].Done?
      ensures Recorded(s'.outs, f)
    {
      RecordKept(s.outs, s'.outs, f);
    }
  }

  lemma CompleteKeepsRecord(s: Client, outcome: Outcome, trigger: Trigger)
    requires RecordedInv(s) && PendingOpen(s)
    ensures RecordedInv(Complete(s, outcome, trigger))
  {
    var s' := Complete(s, outcome, trigger);
    assert s'.outs[|s.outs|].fut == s.pendingFuture.value;
    forall f | 0 <= f < |s'.futures| && s'.futures[f].Done?
      ensures Recorded(s'.outs, f)
    {
      if f != s.pendingFuture.value {
        RecordKept(s.outs, s'.outs, f);
      }
    }
  }

  lemma RouteKeepsRecord(s: Client, m: ClawMessage, cfg: Config)
    requires RecordedInv(s)
    ensures RecordedInv(Route(s, m, cfg))
  {
    if PendingOpen(s) && s.pendingFutureMsgId == Some(m.msgId) && s.timedOutMsgId != s.pendingFutureMsgId {
      CompleteKeepsRecord(s, Reply(m.text, m.mediaPaths), ChatFinal(m));
    } else {
      QuietKeepsRecord(s, Route(s, m, cfg));
    }
  }

  lemma DebounceKeepsRecord(s: Client, t: TimerId, cfg: Config)
    requires RecordedInv(s) && t in s.agg.timers
    ensures RecordedInv(OnDebounce(s, t, cfg))
  {
    var group := Popped(s.agg, t);
    var s1 := s.(agg := Finalize(s.agg, t), batches := s.batches + [Fired(s.agg.timers[t], group)]);
    QuietKeepsRecord(s, s1);
    if SelectBest(group, cfg.minLen).Some? {
      RouteKeepsRecord(s1, SelectBest(group, cfg.minLen).value, cfg);
    }
  }

  lemma RejectionKeepsRecord(s: Client, error: string)
    requires RecordedInv(s)
    ensures RecordedInv(OnRejection(s, error))
  {
    var s1 := Arrive(s, Rejected(error));
    if PendingOpen(s1) {
      CompleteKeepsRecord(s1, Reply("[Error: " + error + "]", []), Rejected(error));
    }
  }

  lemma AgentErrorKeepsRecord(s: Client, runId: RunId, error: string)
    requires RecordedInv(s)
    ensures RecordedInv(OnAgentError(s, runId, error))
  {
    var s1 := Arrive(s, LifecycleError(runId, error));
    if PendingOpen(s1) {
      CompleteKeepsRecord(s1, Reply(ErrorText(AgentTextOf(s, runId), error), []), LifecycleError(runId, error));
    }
  }

  lemma FallbackKeepsRecord(s: Client, k: nat)
    requires RecordedInv(s) && k in s.fallbacks
    ensures RecordedInv(OnFallback(s, k))
  {
    var f := s.fallbacks[k];
    var s1 := s.(fallbacks := s.fallbacks - {k});
    if PendingOpen(s1) {
      CompleteKeepsRecord(s1, Reply(f.text, []), LifecycleEnd(f.runId, f.text));
    }
  }

  lemma ListenerEndsKeepsRecord(s: Client)
    requires RecordedInv(s)
    ensures RecordedInv(OnListenerEnds(s))
  {
    var s1 := Arrive(s, Disconnect).(listening := false, agentTexts := map[]);
    if PendingOpen(s1) {
      CompleteKeepsRecord(s1, Dropped, Disconnect);
    }
  }

  lemma CompletionKeepsRecord(s: Client, ev: Event, cfg: Config)
    requires RecordedInv(s) && Enabled(s, ev) && IsCompletion(ev)
    ensures RecordedInv(Step(s, ev, cfg))
  {
    match ev
    case Rejection(error) => RejectionKeepsRecord(s, error);
    case AgentError(runId, error) => AgentErrorKeepsRecord(s, runId, error);
    case FallbackFires(k) => FallbackKeepsRecord(s, k);
    case ListenerEnds => ListenerEndsKeepsRecord(s);
  }

  lemma OthersCompleteNothing(s: Client, ev: Event, cfg: Config)
    requires Enabled(s, ev) && !IsCompletion(ev) && !ev.DebounceFires?
    ensures var s' := Step(s, ev, cfg);
            && s.outs <= s'.outs
            && forall f | 0 <= f < |s'.futures| && s'.futures[f].Done? :: f < |s.futures| && s.futures[f].Done?
  {
  }

  lemma StepKeepsRecord(s: Client, ev: Event, cfg: Config)
    requires RecordedInv(s)
    ensures RecordedInv(Step(s, ev, cfg))
  {
    if Enabled(s, ev) {
      if ev.DebounceFires? {
        DebounceKeepsRecord(s, ev.t, cfg);
      } else if IsCompletion(ev) {
        CompletionKeepsRecord(s, ev, cfg);
      } else {
        OthersCompleteNothing(s, ev, cfg);
        QuietKeepsRecord(s, Step(s, ev, cfg));
      }
    }
  }

  lemma {:induction false} RunKeepsRecord(evs: seq<Event>, cfg: Config)
    ensures RecordedInv(Run(evs, cfg))
  {
    if evs != [] {
      RunKeepsRecord(evs[..|evs| - 1], cfg);
      StepKeepsRecord(Run(evs[..|evs| - 1], cfg), evs[|evs| - 1], cfg);
    }
  }

  /** The completion behind a result: of the caller's own future, with this very
      outcome, by an event that arrived while the caller's request was active. */
  ghost predicate CameFrom(s: Client, r: Return, out: Out) {
    && out in s.outs && out.Completed? && out.fut == r.id
    && r.result == ResultOf(out.outcome)
    && Fits(out.trigger, out.outcome)
    && Arrival(out.trigger, Some(Request(r.id))) in s.arrivals
  }

  lemma ReturnCameFrom(s: Client, r: Return)
    requires OutsInv(s) && RecordedInv(s) && ReturnOk(s.futures, s.sender, r)
    requires r.result.Answer? || r.result.ConnectionLost?
    ensures exists out :: CameFrom(s, r, out)
  {
    assert Recorded(s.outs, r.id);
    var k :| 0 <= k < |s.outs| && s.outs[k].Completed? && s.outs[k].fut == r.id;
    assert CompletionOk(s.futures, s.arrivals, s.outs[k]);
    assert CameFrom(s, r, s.outs[k]);
  }

  /** A caller gets at most one result per request, and every answer it gets, or lost
      connection it is told of, goes back to an event that arrived while its own request
      was the active one: never to that of an earlier request. */
  lemma AnswersAreOwn(evs: seq<Event>, cfg: Config, i: nat)
    requires i < |Run(evs, cfg).returned|
    ensures var s := Run(evs, cfg);
            var r := s.returned[i];
            && (forall j | 0 <= j < |s.returned| && s.returned[j].id == r.id :: j == i)
            && (r.result.Answer? || r.result.ConnectionLost? ==> exists out :: CameFrom(s, r, out))
  {
    RunKeepsInv(evs, cfg);
    RunKeepsRecord(evs, cfg);
    var s := Run(evs, cfg);
    assert ReturnOk(s.futures, s.sender, s.returned[i]);
    if s.returned[i].result.Answer? || s.returned[i].result.ConnectionLost? {
      ReturnCameFrom(s, s.returned[i]);
    }
  }

  /** No send is left hanging: when the connection ends, whatever happened before, the
      pending future is completed, and a sender that waits can wake up. */
  lemma DisconnectUnblocks(evs: seq<Event>, cfg: Config)
    requires Run(evs, cfg).listening
    ensures var s := Step(Run(evs, cfg), ListenerEnds, cfg);
            !PendingOpen(s) && (s.sender.Waiting? ==> Enabled(s, Wake))
  {
    RunKeepsInv(evs, cfg);
    ListenerEndsKeepsInv(Run(evs, cfg));
  }

  /** A rejection that lands while the request is still being written empties the slot
      the sender reads next: exactly then the send crashes. */
  lemma CrashesIffRejectedWhileWriting(evs: seq<Event>, cfg: Config)
    requires Run(evs, cfg).sender.Writing?
    ensures var s := Run(evs, cfg);
            Return(s.sender.id, Crashed) in Step(s, Written, cfg).returned <==> WasRejected(s.arrivals, s.sender.id)
  {
    RunKeepsInv(evs, cfg);
    var s := Run(evs, cfg);
    forall i | 0 <= i < |s.returned|
      ensures s.returned[i].id != s.sender.id
    {
      assert ReturnOk(s.futures, s.sender, s.returned[i]);
    }
  }

  /** Such a run exists: begin, reject, then finish the write. */
  lemma RejectionCanBeLost(cfg: Config, error: string)
    ensures Run([BeginSend, Rejection(error), Written], cfg).returned == [Return(0, Crashed)]
  {
    var evs := [BeginSend, Rejection(error), Written];
    assert evs[..2] == [BeginSend, Rejection(error)];
    assert evs[..2][..1] == [BeginSend];
    assert evs[..2][..1][..0] == [];
    assert Run([BeginSend], cfg) == OnBegin(START);
    assert Run(evs[..2], cfg) == OnRejection(OnBegin(START), error);
  }

  /*** What every run promises about finals ***/

  function TakenBy(batch: Batch, id: MsgTag): seq<ClawMessage> {
    match batch
    case Fired(fired, group) => if fired == id then group else []
    case Cleared(buffers) => if id in buffers then buffers[id] else []
  }

  /** What has left the buffer of one id, in order. */
  function Emptied(batches: seq<Batch>, id: MsgTag): seq<ClawMessage> {
    if batches == [] then [] else Emptied(batches[..|batches| - 1], id) + TakenBy(batches[|batches| - 1], id)
  }

  /** The winners of the fired groups, and the messages handed to a waiter or to the
      proactive callback, each in order. */
  function Winners(batches: seq<Batch>, minLen: int): seq<ClawMessage> {
    if batches == [] then [] else Winners(batches[..|batches| - 1], minLen) + WinnerOf(batches[|batches| - 1], minLen)
  }

  function WinnerOf(batch: Batch, minLen: int): seq<ClawMessage> {
    if batch.Fired? && SelectBest(batch.group, minLen).Some? then [SelectBest(batch.group, minLen).value] else []
  }

  function Handed(outs: seq<Out>): seq<ClawMessage> {
    if outs == [] then [] else Handed(outs[..|outs| - 1]) + HandedBy(outs[|outs| - 1])
  }

  function HandedBy(out: Out): seq<ClawMessage> {
    match out
    case Completed(_, _, _, ChatFinal(m)) => [m]
    case Proactively(m) => [m]
    case _ => []
  }

  ghost predicate FlowInv(s: Client) {
    forall id :: Emptied(s.batches, id) + s.agg.Buffer(id) == FinalsOf(s.received, id)
  }

  lemma HandedSnoc(outs: seq<Out>, out: Out)
    ensures Handed(outs + [out]) == Handed(outs) + HandedBy(out)
  {
    assert (outs + [out])[..|outs|] == outs;
  }

  lemma EmptiedSnoc(batches: seq<Batch>, batch: Batch, id: MsgTag)
    ensures Emptied(batches + [batch], id) == Emptied(batches, id) + TakenBy(batch, id)
  {
    assert (batches + [batch])[..|batches|] == batches;
  }

  lemma WinnersSnoc(batches: seq<Batch>, batch: Batch, minLen: int)
    ensures Winners(batches + [batch], minLen) == Winners(batches, minLen) + WinnerOf(batch, minLen)
  {
    assert (batches + [batch])[..|batches|] == batches;
  }

  /** Routing a winner hands it over once, on whichever side it goes. */
  lemma RouteHandsOver(s: Client, m: ClawMessage, cfg: Config)
    requires cfg.hasProactive && m.text != ""
    ensures Handed(Route(s, m, cfg).outs) == Handed(s.outs) + [m]
  {
    HandedSnoc(s.outs, Proactively(m));
    if PendingOpen(s) {
      HandedSnoc(s.outs, Completed(s.pendingFuture.value, TagOf(s.pendingFutureMsgId),
                                   Reply(m.text, m.mediaPaths), ChatFinal(m)));
    }
  }

  lemma SenderHandsNothing(s: Client, ev: Event, cfg: Config)
    requires Enabled(s, ev) && IsSenderStep(ev)
    ensures var s' := Step(s, ev, cfg);
            s'.outs == s.outs && s'.batches == s.batches && s'.agg == s.agg && s'.received == s.received
  {
  }

  lemma CompleteHands(s: Client, outcome: Outcome, trigger: Trigger)
    requires PendingOpen(s) && !trigger.ChatFinal?
    ensures Handed(Complete(s, outcome, trigger).outs) == Handed(s.outs)
  {
    var msg := if s.pendingFutureMsgId.Some? then s.pendingFutureMsgId.value else Proactive;
    HandedSnoc(s.outs, Completed(s.pendingFuture.value, msg, outcome, trigger));
  }

  predicate IsCompletion(ev: Event) {
    ev.Rejection? || ev.AgentError? || ev.FallbackFires? || ev.ListenerEnds?
  }

  lemma CompletionsHandNothing(s: Client, ev: Event, cfg: Config)
    requires Enabled(s, ev) && IsCompletion(ev)
    ensures Handed(Step(s, ev, cfg).outs) == Handed(s.outs)
  {
    match ev
    case Rejection(error) =>
      var s1 := Arrive(s, Rejected(error));
      if PendingOpen(s1) { CompleteHands(s1, Reply("[Error: " + error + "]", []), Rejected(error)); }
    case AgentError(runId, error) =>
      var s1 := Arrive(s, LifecycleError(runId, error));
      if PendingOpen(s1) {
        CompleteHands(s1, Reply(ErrorText(AgentTextOf(s, runId), error), []), LifecycleError(runId, error));
      }
    case FallbackFires(k) =>
      var f := s.fallbacks[k];
      var s1 := s.(fallbacks := s.fallbacks - {k});
      if PendingOpen(s1) { CompleteHands(s1, Reply(f.text, []), LifecycleEnd(f.runId, f.text)); }
    case ListenerEnds =>
      var s1 := Arrive(s, Disconnect).(listening := false, agentTexts := map[]);
      if PendingOpen(s1) { CompleteHands(s1, Dropped, Disconnect); }
  }

  lemma QuietHandNothing(s: Client, ev: Event, cfg: Config)
    requires Enabled(s, ev) && !IsSenderStep(ev) && !IsCompletion(ev) && !ev.DebounceFires?
    ensures Handed(Step(s, ev, cfg).outs) == Handed(s.outs)
  {
    if ev.CronEvent? {
      HandedSnoc(s.outs, Cron(ev.summary));
    }
  }

  lemma CompletionFrame(s: Client, ev: Event, cfg: Config)
    requires IsCompletion(ev)
    ensures var s' := Step(s, ev, cfg);
            s'.batches == s.batches && s'.agg == s.agg && s'.received == s.received
  {
  }

  lemma BatchesStay(s: Client, ev: Event, cfg: Config)
    requires !ev.DebounceFires? && !ev.Close?
    ensures Step(s, ev, cfg).batches == s.batches
    ensures !ev.Chat? ==> Step(s, ev, cfg).agg == s.agg && Step(s, ev, cfg).received == s.received
  {
    if IsCompletion(ev) {
      CompletionFrame(s, ev, cfg);
    } else if IsSenderStep(ev) && Enabled(s, ev) {
      SenderHandsNothing(s, ev, cfg);
    }
  }

  /** No other step hands a final over. */
  lemma OthersHandNothing(s: Client, ev: Event, cfg: Config)
    requires Enabled(s, ev) && !ev.DebounceFires?
    ensures Handed(Step(s, ev, cfg).outs) == Handed(s.outs)
    ensures !ev.Close? ==> Step(s, ev, cfg).batches == s.batches
  {
    if !ev.Close? { BatchesStay(s, ev, cfg); }
    if IsSenderStep(ev) {
      SenderHandsNothing(s, ev, cfg);
    } else if IsCompletion(ev) {
      CompletionsHandNothing(s, ev, cfg);
    } else {
      QuietHandNothing(s, ev, cfg);
    }
  }

  lemma DebounceHandsOver(s: Client, t: TimerId, cfg: Config)
    requires t in s.agg.timers && cfg.hasProactive
    requires Handed(s.outs) == Winners(s.batches, cfg.minLen)
    ensures Handed(OnDebounce(s, t, cfg).outs) == Winners(OnDebounce(s, t, cfg).batches, cfg.minLen)
  {
    var id, group := s.agg.timers[t], Popped(s.agg, t);
    DebounceFrame(s, t, cfg);
    WinnersSnoc(s.batches, Fired(id, group), cfg.minLen);
    SelectBestSound(group, cfg.minLen);
    if SelectBest(group, cfg.minLen).Some? {
      var s1 := s.(agg := Finalize(s.agg, t), batches := s.batches + [Fired(id, group)]);
      RouteHandsOver(s1, SelectBest(group, cfg.minLen).value, cfg);
    } else {
      assert Winners(s.batches, cfg.minLen) + [] == Winners(s.batches, cfg.minLen);
    }
  }

  lemma RouteFrame(s: Client, m: ClawMessage, cfg: Config)
    ensures var s' := Route(s, m, cfg);
            s'.batches == s.batches && s'.received == s.received && s'.agg == s.agg
  {
  }

  lemma DebounceFrame(s: Client, t: TimerId, cfg: Config)
    requires t in s.agg.timers
    ensures var s' := OnDebounce(s, t, cfg);
            && s'.batches == s.batches + [Fired(s.agg.timers[t], Popped(s.agg, t))]
            && s'.received == s.received
            && s'.agg == Finalize(s.agg, t)
  {
    var group := Popped(s.agg, t);
    var s1 := s.(agg := Finalize(s.agg, t), batches := s.batches + [Fired(s.agg.timers[t], group)]);
    if SelectBest(group, cfg.minLen).Some? {
      RouteFrame(s1, SelectBest(group, cfg.minLen).value, cfg);
    }
  }

  ghost predicate AllHanded(s: Client, minLen: int) {
    Handed(s.outs) == Winners(s.batches, minLen)
  }

  lemma StepHandsOver(s: Client, ev: Event, cfg: Config)
    requires cfg.hasProactive && AllHanded(s, cfg.minLen)
    ensures AllHanded(Step(s, ev, cfg), cfg.minLen)
  {
    if Enabled(s, ev) {
      if ev.DebounceFires? {
        DebounceHandsOver(s, ev.t, cfg);
      } else {
        OthersHandNothing(s, ev, cfg);
        if ev.Close? {
          WinnersSnoc(s.batches, Cleared(s.agg.buffers), cfg.minLen);
        }
      }
    }
  }

  lemma {:induction false} RunHandsOver(evs: seq<Event>, cfg: Config)
    requires cfg.hasProactive
    ensures AllHanded(Run(evs, cfg), cfg.minLen)
  {
    if evs != [] {
      RunHandsOver(evs[..|evs| - 1], cfg);
      StepHandsOver(Run(evs[..|evs| - 1], cfg), evs[|evs| - 1], cfg);
    }
  }

  lemma DebounceKeepsFlow(s: Client, t: TimerId, cfg: Config)
    requires FlowInv(s) && s.agg.Inv() && t in s.agg.timers
    ensures FlowInv(OnDebounce(s, t, cfg))
  {
    DebounceFrame(s, t, cfg);
    forall id
      ensures Emptied(OnDebounce(s, t, cfg).batches, id) + Finalize(s.agg, t).Buffer(id) == FinalsOf(s.received, id)
    {
      assert Emptied(s.batches, id) + s.agg.Buffer(id) == FinalsOf(s.received, id);
      PoppedMoves(s, t, id);
    }
  }

  lemma FinalizeMoves(agg: AggState, t: TimerId, id: MsgTag)
    requires t in agg.timers
    ensures TakenBy(Fired(agg.timers[t], Popped(agg, t)), id) == if id == agg.timers[t] then agg.Buffer(id) else []
    ensures Finalize(agg, t).Buffer(id) == if id == agg.timers[t] then [] else agg.Buffer(id)
  {
  }

  lemma PoppedMoves(s: Client, t: TimerId, id: MsgTag)
    requires t in s.agg.timers
    ensures Emptied(s.batches + [Fired(s.agg.timers[t], Popped(s.agg, t))], id) + Finalize(s.agg, t).Buffer(id)
            == Emptied(s.batches, id) + s.agg.Buffer(id)
  {
    EmptiedSnoc(s.batches, Fired(s.agg.timers[t], Popped(s.agg, t)), id);
    FinalizeMoves(s.agg, t, id);
    var before, buffer := Emptied(s.batches, id), s.agg.Buffer(id);
    assert before + buffer + [] == before + [] + buffer == before + buffer;
  }

  lemma CloseKeepsFlow(s: Client)
    requires FlowInv(s)
    ensures FlowInv(OnClose(s))
  {
    var s' := OnClose(s);
    assert s'.batches[..|s.batches|] == s.batches;
    forall id
      ensures Emptied(s'.batches, id) + s'.agg.Buffer(id) == FinalsOf(s'.received, id)
    {
      assert Emptied(s.batches, id) + s.agg.Buffer(id) == FinalsOf(s.received, id);
    }
  }

  lemma ChatKeepsFlow(s: Client, m: ClawMessage)
    requires FlowInv(s)
    ensures FlowInv(OnChat(s, m))
  {
    var s' := OnChat(s, m);
    if m.IsFinal() {
      assert s'.received[..|s.received|] == s.received;
      forall id
        ensures Emptied(s'.batches, id) + s'.agg.Buffer(id) == FinalsOf(s'.received, id)
      {
        assert Emptied(s.batches, id) + s.agg.Buffer(id) == FinalsOf(s.received, id);
      }
    }
  }

  lemma StepKeepsFlow(s: Client, ev: Event, cfg: Config)
    requires FlowInv(s) && s.agg.Inv()
    ensures FlowInv(Step(s, ev, cfg))
  {
    if Enabled(s, ev) {
      match ev
      case DebounceFires(t) => DebounceKeepsFlow(s, t, cfg);
      case Close => CloseKeepsFlow(s);
      case Chat(seqNo, state, text, runId, urls, single, ts) =>
        ChatKeepsFlow(s, MessageOf(s, seqNo, state, text, runId, urls, single, ts));
      case _ => OthersKeepFlow(s, ev, cfg);
    }
  }

  lemma OthersKeepFlow(s: Client, ev: Event, cfg: Config)
    requires FlowInv(s) && !ev.DebounceFires? && !ev.Close? && !ev.Chat?
    ensures FlowInv(Step(s, ev, cfg))
  {
    BatchesStay(s, ev, cfg);
    var s' := Step(s, ev, cfg);
    forall id
      ensures Emptied(s'.batches, id) + s'.agg.Buffer(id) == FinalsOf(s'.received, id)
    {
      assert Emptied(s.batches, id) + s.agg.Buffer(id) == FinalsOf(s.received, id);
    }
  }

  lemma {:induction false} RunKeepsFlow(evs: seq<Event>, cfg: Config)
    ensures FlowInv(Run(evs, cfg))
  {
    if evs != [] {
      RunKeepsFlow(evs[..|evs| - 1], cfg);
      RunKeepsInv(evs[..|evs| - 1], cfg);
      StepKeepsFlow(Run(evs[..|evs| - 1], cfg), evs[|evs| - 1], cfg);
    }
  }

  /** No final is silently lost. Per id, the groups that left the buffer followed by
      the buffer give back the received finals; and with a callback set the messages
      handed over, to a waiter or proactively, are exactly the winners of the fired
      groups, each once and in firing order. */
  lemma FinalsAreConserved(evs: seq<Event>, cfg: Config, id: MsgTag)
    ensures var s := Run(evs, cfg);
            && Emptied(s.batches, id) + s.agg.Buffer(id) == FinalsOf(s.received, id)
            && (cfg.hasProactive ==> Handed(s.outs) == Winners(s.batches, cfg.minLen))
  {
    RunKeepsFlow(evs, cfg);
    if cfg.hasProactive {
      RunHandsOver(evs, cfg);
    }
  }

  lemma StrippedTier(m: ClawMessage, minLen: int)
    requires Strip(m.text) == m.text && Tier(m, minLen) > 0
    ensures m.NonBlank()
  {
  }

  lemma WinnerIsNonBlank(group: seq<ClawMessage>, minLen: int)
    requires forall m | m in group :: Strip(m.text) == m.text
    ensures SelectBest(group, minLen).Some? ==>
              SelectBest(group, minLen).value in group && SelectBest(group, minLen).value.NonBlank()
  {
    SelectBestSound(group, minLen);
    var best := SelectBest(group, minLen);
    if best.Some? {
      assert best.value in group && Tier(best.value, minLen) > 0;
      StrippedTier(best.value, minLen);
    }
  }

  lemma NonBlankHasWinner(group: seq<ClawMessage>, minLen: int, m: ClawMessage)
    requires m in group && m.IsFinal() && m.NonBlank()
    ensures SelectBest(group, minLen).Some?
  {
    SelectBestSound(group, minLen);
    assert Tier(m, minLen) > 0 && !Beats(m, SelectBest(group, minLen), minLen);
  }

  /** A fired group has a winner exactly when it holds a final that is not blank:
      the texts the engine buffers are stripped, so no minimum length is needed. */
  lemma FiredGroupHasWinner(evs: seq<Event>, cfg: Config, t: TimerId)
    requires t in Run(evs, cfg).agg.timers
    ensures var group := Popped(Run(evs, cfg).agg, t);
            SelectBest(group, cfg.minLen).Some? <==> exists m :: m in group && m.NonBlank()
  {
    RunKeepsInv(evs, cfg);
    var s := Run(evs, cfg);
    forall m | m in Popped(s.agg, t)
      ensures m.IsFinal() && Strip(m.text) == m.text
    {
      assert SourceOk(s.arrivals, m);
    }
    WinnerIsNonBlank(Popped(s.agg, t), cfg.minLen);
    if m :| m in Popped(s.agg, t) && m.NonBlank() {
      NonBlankHasWinner(Popped(s.agg, t), cfg.minLen, m);
    }
  }

  /** Where a winner goes: to the waiter exactly when its own request still waits with
      an open future, so the extra test against the timed-out id never decides. */
  lemma WinnerGoesToItsWaiter(evs: seq<Event>, cfg: Config, t: TimerId)
    requires t in Run(evs, cfg).agg.timers
    requires SelectBest(Popped(Run(evs, cfg).agg, t), cfg.minLen).Some?
    ensures var s := Run(evs, cfg);
            var m := SelectBest(Popped(s.agg, t), cfg.minLen).value;
            OnDebounce(s, t, cfg).outs ==
              if PendingOpen(s) && !s.sender.Idle? && m.msgId == Request(s.sender.id) then
                s.outs + [Completed(s.sender.id, m.msgId, Reply(m.text, m.mediaPaths), ChatFinal(m))]
              else if cfg.hasProactive then s.outs + [Proactively(m)]
              else s.outs
  {
    RunKeepsInv(evs, cfg);
    var s := Run(evs, cfg);
    SelectBestSound(Popped(s.agg, t), cfg.minLen);
  }

  /*** Only close() discards ***/

  function Clearings(batches: seq<Batch>): nat {
    if batches == [] then 0
    else Clearings(batches[..|batches| - 1]) + (if batches[|batches| - 1].Cleared? then 1 else 0)
  }

  function Closes(evs: seq<Event>): nat {
    if evs == [] then 0 else Closes(evs[..|evs| - 1]) + (if evs[|evs| - 1].Close? then 1 else 0)
  }

  lemma ClearingsSnoc(batches: seq<Batch>, batch: Batch)
    ensures Clearings(batches + [batch]) == Clearings(batches) + (if batch.Cleared? then 1 else 0)
  {
    assert (batches + [batch])[..|batches|] == batches;
  }

  lemma StepClears(s: Client, ev: Event, cfg: Config)
    ensures Clearings(Step(s, ev, cfg).batches) == Clearings(s.batches) + (if ev.Close? then 1 else 0)
  {
    if ev.Close? {
      ClearingsSnoc(s.batches, Cleared(s.agg.buffers));
    } else if ev.DebounceFires? && Enabled(s, ev) {
      DebounceFrame(s, ev.t, cfg);
      ClearingsSnoc(s.batches, Fired(s.agg.timers[ev.t], Popped(s.agg, ev.t)));
    } else if !ev.DebounceFires? {
      BatchesStay(s, ev, cfg);
    }
  }

  /** Buffered groups are discarded once per close() and by nothing else: every other
      batch that leaves a buffer is a fired group. */
  lemma {:induction false} OnlyCloseDiscards(evs: seq<Event>, cfg: Config)
    ensures Clearings(Run(evs, cfg).batches) == Closes(evs)
  {
    if evs != [] {
      OnlyCloseDiscards(evs[..|evs| - 1], cfg);
      StepClears(Run(evs[..|evs| - 1], cfg), evs[|evs| - 1], cfg);
    }
  }
}

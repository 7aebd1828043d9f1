/** OpenClawClient with its fields updated in place (src/services/openclaw_client.py).
    Each method is one stretch of the source between two awaits and is tied to the
    operation of ClientEngine the run properties are proved about. */
module OpenClawClients {
  import opened PyText
  import opened Aggregation
  import opened ClientEngine
  import Scrub

  class OpenClawClient {
    const cfg: Config
    const aggregator: ClawAggregator

    var listening: bool
    var activeMsgId: Option<MsgTag>
    var pendingFuture: Option<nat>
    var pendingFutureMsgId: Option<MsgTag>
    var timedOutMsgId: Option<MsgTag>
    var agentTexts: map<RunId, string>

    // the event loop's part: lock holder, futures, sleeping fallbacks
    var sender: Sender
    var futures: seq<Future>
    var fallbacks: map<nat, Fallback>
    var nextFallback: nat

    // history
    ghost var arrivals: seq<Arrival>
    ghost var received: seq<ClawMessage>
    ghost var batches: seq<Batch>
    ghost var outs: seq<Out>
    ghost var returned: seq<Return>

    /** Every invariant of the engine holds between any two steps. */
    ghost predicate Valid()
      reads this, aggregator
    {
      aggregator.minLen == cfg.minLen && Inv(View())
    }

    ghost function View(): Client
      reads this, aggregator
    {
      Client(listening, activeMsgId, pendingFuture, pendingFutureMsgId, timedOutMsgId, agentTexts, aggregator.View(),
             sender, futures, fallbacks, nextFallback, arrivals, received, batches, outs, returned)
    }

    constructor (cfg: Config)
      ensures Valid() && this.cfg == cfg && View() == START
      ensures fresh(aggregator)
    {
      this.cfg := cfg;
      aggregator := new ClawAggregator(cfg.minLen);
      listening, activeMsgId, pendingFuture, pendingFutureMsgId, timedOutMsgId := true, None, None, None, None;
      agentTexts, sender, futures, fallbacks, nextFallback := map[], Idle, [], map[], 0;
      arrivals, received, batches, outs, returned := [], [], [], [], [];
      new;
      RunKeepsInv([], cfg);
    }

    predicate FutureOpen()
      reads this
      ensures FutureOpen() <==>
                pendingFuture.Some? && pendingFuture.value < |futures| && futures[pendingFuture.value].Pending?
    {
      pendingFuture.Some? && pendingFuture.value < |futures| && futures[pendingFuture.value].Pending?
    }

    method SetOutcome(outcome: Outcome, ghost trigger: Trigger)
      requires FutureOpen()
      modifies this`futures, this`outs
      ensures View() == Complete(old(View()), outcome, trigger)
    {
      futures := futures[pendingFuture.value := Done(outcome)];
      outs := outs + [Completed(pendingFuture.value,
                                if pendingFutureMsgId.Some? then pendingFutureMsgId.value else Proactive,
                                outcome, trigger)];
    }

    /*** send_message ***/

    method FillSlots(id: nat)
      modifies this`activeMsgId, this`pendingFuture, this`pendingFutureMsgId
      ensures View() == old(View()).(activeMsgId := Some(Request(id)), pendingFuture := Some(id),
                                     pendingFutureMsgId := Some(Request(id)))
    {
      activeMsgId := Some(Request(id));
      pendingFuture := Some(id);
      pendingFutureMsgId := Some(Request(id));
    }

    method BeginSend()
      requires Valid()
      requires sender.Idle?
      modifies this
      ensures Valid()
      ensures View() == OnBegin(old(View()))
    {
      StepKeepsInv(View(), Event.BeginSend, cfg);
      var id := |futures|;
      FillSlots(id);
      futures := futures + [Pending];
      sender := Writing(id);
    }

    method Finally(id: nat, result: Result)
      modifies this
      ensures View() == Finish(old(View()), id, result)
    {
      ResetSlots();
      sender := Idle;
      returned := returned + [Return(id, result)];
    }

    method WriteReturns() returns (result: Option<Result>)
      requires Valid()
      requires sender.Writing?
      modifies this
      ensures Valid()
      ensures View() == Step(old(View()), Written, cfg)
      ensures result == if old(pendingFuture).None? then Some(Crashed) else None
    {
      StepKeepsInv(View(), Written, cfg);
      var id := sender.id;
      if pendingFuture.None? {
        Finally(id, Crashed);
        return Some(Crashed);
      }
      sender := Waiting(id, pendingFuture.value);
      result := None;
    }

    method FutureDone() returns (result: Result)
      requires Valid()
      requires sender.Waiting? && sender.fut < |futures| && futures[sender.fut].Done?
      modifies this
      ensures Valid()
      ensures View() == Step(old(View()), Wake, cfg)
      ensures result == ResultOf(old(futures[sender.fut].outcome))
    {
      StepKeepsInv(View(), Wake, cfg);
      match futures[sender.fut].outcome {
        case Reply(text, media) => result := Answer(text, media);
        case Dropped => result := ConnectionLost;
      }
      Finally(sender.id, result);
    }

    method WaitTimesOut() returns (result: Result)
      requires Valid()
      requires sender.Waiting? && sender.fut < |futures| && futures[sender.fut].Pending?
      modifies this
      ensures Valid()
      ensures View() == Step(old(View()), TimeOut, cfg)
      ensures result == Result.TimedOut
    {
      StepKeepsInv(View(), TimeOut, cfg);
      timedOutMsgId := Some(Request(sender.id));
      result := Result.TimedOut;
      Finally(sender.id, result);
    }

    method WriteFails()
      requires Valid()
      requires !sender.Idle?
      modifies this
      ensures Valid()
      ensures View() == Step(old(View()), Abort, cfg)
    {
      StepKeepsInv(View(), Abort, cfg);
      Finally(sender.id, Aborted);
    }

    /*** _dispatch ***/

    method ResetSlots()
      modifies this`activeMsgId, this`pendingFuture, this`pendingFutureMsgId
      ensures View() == ClearSlots(old(View()))
    {
      activeMsgId := None;
      pendingFuture := None;
      pendingFutureMsgId := None;
    }

    method DispatchRejection(error: string)
      requires Valid()
      requires listening
      modifies this
      ensures Valid()
      ensures View() == Step(old(View()), Rejection(error), cfg)
    {
      StepKeepsInv(View(), Rejection(error), cfg);
      arrivals := arrivals + [Arrival(Rejected(error), activeMsgId)];
      if FutureOpen() {
        SetOutcome(Reply("[Error: " + error + "]", []), Rejected(error));
      }
      ResetSlots();
    }

    method DispatchAgentText(runId: RunId, text: string)
      requires Valid()
      requires listening
      modifies this
      ensures Valid()
      ensures View() == Step(old(View()), AgentText(runId, text), cfg)
    {
      StepKeepsInv(View(), AgentText(runId, text), cfg);
      if text != "" && runId != "" {
        agentTexts := agentTexts[runId := text];
      }
    }

    method GetAgentText(runId: RunId) returns (text: string)
      ensures text == AgentTextOf(View(), runId)
    {
      text := if runId in agentTexts then agentTexts[runId] else "";
    }

    method DispatchAgentError(runId: RunId, error: string)
      requires Valid()
      requires listening
      modifies this
      ensures Valid()
      ensures View() == Step(old(View()), AgentError(runId, error), cfg)
    {
      StepKeepsInv(View(), AgentError(runId, error), cfg);
      arrivals := arrivals + [Arrival(LifecycleError(runId, error), activeMsgId)];
      if activeMsgId.Some? && FutureOpen() {
        var existing := GetAgentText(runId);
        SetOutcome(Reply(ErrorText(existing, error), []), LifecycleError(runId, error));
      }
    }

    method Schedule(f: Fallback)
      modifies this`fallbacks, this`nextFallback
      ensures View() == old(View()).(fallbacks := old(fallbacks)[old(nextFallback) := f],
                                     nextFallback := old(nextFallback) + 1)
    {
      fallbacks := fallbacks[nextFallback := f];
      nextFallback := nextFallback + 1;
    }

    method DispatchAgentEnd(runId: RunId)
      requires Valid()
      requires listening
      modifies this
      ensures Valid()
      ensures View() == OnAgentEnd(old(View()), runId)
    {
      AgentEndKeepsInv(View(), runId);
      var text := GetAgentText(runId);
      arrivals := arrivals + [Arrival(LifecycleEnd(runId, text), activeMsgId)];
      if runId != "" && activeMsgId.Some? && text != "" && FutureOpen() {
        Schedule(Fallback(activeMsgId.value, runId, text));
      }
    }

    method DelayedFallback(k: nat)
      requires Valid()
      requires k in fallbacks
      modifies this
      ensures Valid()
      ensures View() == OnFallback(old(View()), k)
    {
      FallbackKeepsInv(View(), k);
      var f := fallbacks[k];
      fallbacks := fallbacks - {k};
      if FutureOpen() && pendingFutureMsgId == Some(f.msg) {
        SetOutcome(Reply(f.text, []), LifecycleEnd(f.runId, f.text));
      }
    }

    /** The text and media paths a chat event is passed on with. */
    method BuildMessage(seqNo: int, state: string, extracted: string, runId: RunId,
                        urls: seq<string>, single: string, ts: real) returns (m: ClawMessage)
      ensures m == MessageOf(View(), seqNo, state, extracted, runId, urls, single, ts)
    {
      var text := extracted;
      var agentText := GetAgentText(runId);
      if agentText != "" {
        text := agentText;
      }
      var media: seq<string> := [];
      if state == "final" {
        media := Scrub.CollectMediaPaths(urls, single, text);
        text := Scrub.FinalText(text);
      }
      m := ClawMessage(TagOf(activeMsgId), seqNo, text, state, ts, media);
    }

    method Aggregate(m: ClawMessage)
      modifies this, aggregator
      ensures View() == OnChat(old(View()), m)
    {
      if m.IsFinal() {
        arrivals := arrivals + [Arrival(ChatFinal(m), activeMsgId)];
        received := received + [m];
      }
      aggregator.Add(m);
    }

    method DispatchChat(seqNo: int, state: string, extracted: string, runId: RunId,
                        urls: seq<string>, single: string, ts: real)
      requires Valid()
      requires listening
      modifies this, aggregator
      ensures Valid()
      ensures View() == OnChat(old(View()), MessageOf(old(View()), seqNo, state, extracted, runId, urls, single, ts))
    {
      ChatEventKeepsInv(View(), Chat(seqNo, state, extracted, runId, urls, single, ts));
      var m := BuildMessage(seqNo, state, extracted, runId, urls, single, ts);
      Aggregate(m);
    }

    method DispatchCron(action: string, summary: string)
      requires Valid()
      requires listening
      modifies this
      ensures Valid()
      ensures View() == Step(old(View()), CronEvent(action, summary), cfg)
    {
      StepKeepsInv(View(), CronEvent(action, summary), cfg);
      if action == "removed" || summary == "" {
        return;
      }
      if cfg.hasProactive {
        outs := outs + [Cron(summary)];
      }
    }

    /*** aggregated answers ***/

    method RouteAggregatedMessage(m: ClawMessage)
      modifies this
      ensures View() == Route(old(View()), m, cfg)
    {
      if FutureOpen() && pendingFutureMsgId == Some(m.msgId) && timedOutMsgId != pendingFutureMsgId {
        SetOutcome(Reply(m.text, m.mediaPaths), ChatFinal(m));
      } else {
        if timedOutMsgId == Some(m.msgId) {
          timedOutMsgId := None;
        }
        if cfg.hasProactive && m.text != "" {
          outs := outs + [Proactively(m)];
        }
      }
    }

    method DebounceExpires(t: TimerId)
      requires Valid() && t in aggregator.timers
      modifies this, aggregator
      ensures Valid()
      ensures View() == OnDebounce(old(View()), t, cfg)
    {
      DebounceKeepsInv(View(), t, cfg);
      batches := batches + [Fired(aggregator.timers[t], Popped(aggregator.View(), t))];
      var best := aggregator.FinalizeLater(t);
      if best.Some? {
        RouteAggregatedMessage(best.value);
      }
    }

    /*** the end of the connection ***/

    method StopListening()
      modifies this`arrivals, this`listening, this`agentTexts
      ensures View() == Arrive(old(View()), Disconnect).(listening := false, agentTexts := map[])
    {
      arrivals := arrivals + [Arrival(Disconnect, activeMsgId)];
      listening := false;
      agentTexts := map[];
    }

    method ListenLoopEnds()
      requires Valid()
      requires listening
      modifies this
      ensures Valid()
      ensures View() == OnListenerEnds(old(View()))
    {
      ListenerEndsKeepsInv(View());
      StopListening();
      if FutureOpen() {
        SetOutcome(Dropped, Disconnect);
      }
    }

    method CloseBegins()
      requires Valid()
      modifies this, aggregator
      ensures Valid()
      ensures View() == OnClose(old(View()))
    {
      CloseKeepsInv(View());
      batches := batches + [Cleared(aggregator.buffers)];
      aggregator.CancelAllTimers();
      agentTexts := map[];
    }
  }
}

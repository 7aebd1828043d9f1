/** The engine of src/services/openclaw_client.py in terms of its events alone: what text
    a final carries, what completes the pending future, and what a send returns. */
module ClientHistory {
  import opened PyText
  import opened Aggregation
  import opened ClientEngine
  import Scrub

  /*** The agent's own text ***/

  /** The last text the agent streamed for this run, unless it expired, or a close or the
      end of the connection cleared it. */
  function StreamedText(evs: seq<Event>, runId: RunId): string {
    if evs == [] then ""
    else
      var front, ev := evs[..|evs| - 1], evs[|evs| - 1];
      match ev
      case AgentText(r, text) =>
        if r == runId && text != "" && runId != "" && ListenerEnds !in front then text else StreamedText(front, runId)
      case AgentTextExpires(r) => if r == runId then "" else StreamedText(front, runId)
      case Close => ""
      case ListenerEnds => ""
      case _ => StreamedText(front, runId)
  }

  lemma {:induction false} ListeningIff(evs: seq<Event>, cfg: Config)
    ensures Run(evs, cfg).listening <==> ListenerEnds !in evs
  {
    if evs != [] {
      var front, ev := evs[..|evs| - 1], evs[|evs| - 1];
      assert evs == front + [ev];
      ListeningIff(front, cfg);
      ListeningStep(Run(front, cfg), ev, cfg);
    }
  }

  lemma ListeningStep(s: Client, ev: Event, cfg: Config)
    ensures Step(s, ev, cfg).listening <==> s.listening && !ev.ListenerEnds?
  {
  }

  /** How one event changes the text remembered for a run. */
  lemma TextStep(s: Client, ev: Event, cfg: Config, runId: RunId)
    ensures AgentTextOf(Step(s, ev, cfg), runId) ==
              match ev
              case AgentText(r, text) =>
                if r == runId && text != "" && runId != "" && s.listening then text else AgentTextOf(s, runId)
              case AgentTextExpires(r) => if r == runId then "" else AgentTextOf(s, runId)
              case Close => ""
              case ListenerEnds => if s.listening then "" else AgentTextOf(s, runId)
              case _ => AgentTextOf(s, runId)
  {
  }

  lemma {:induction false} NoTextAfterEnd(evs: seq<Event>, runId: RunId)
    requires ListenerEnds in evs
    ensures StreamedText(evs, runId) == ""
  {
    var front, ev := evs[..|evs| - 1], evs[|evs| - 1];
    assert evs == front + [ev];
    if ev != ListenerEnds {
      NoTextAfterEnd(front, runId);
    }
  }

  lemma {:induction false} RememberedIsStreamed(evs: seq<Event>, cfg: Config, runId: RunId)
    ensures AgentTextOf(Run(evs, cfg), runId) == StreamedText(evs, runId)
  {
    if evs != [] {
      var front, ev := evs[..|evs| - 1], evs[|evs| - 1];
      RememberedIsStreamed(front, cfg, runId);
      ListeningIff(front, cfg);
      TextStep(Run(front, cfg), ev, cfg, runId);
      if ListenerEnds in front {
        NoTextAfterEnd(front, runId);
      }
    }
  }

  /*** What a final carries ***/

  /** The request a chat event belongs to: the one being sent or awaited, unless it was
      rejected. */
  ghost function OwnerTag(s: Client): MsgTag {
    if s.sender.Idle? || WasRejected(s.arrivals, s.sender.id) then Proactive else Request(s.sender.id)
  }

  lemma RunSnoc(evs: seq<Event>, ev: Event, cfg: Config)
    ensures Run(evs + [ev], cfg) == Step(Run(evs, cfg), ev, cfg)
  {
    assert (evs + [ev])[..|evs|] == evs;
  }

  lemma OwnerIsActive(evs: seq<Event>, cfg: Config)
    ensures TagOf(Run(evs, cfg).activeMsgId) == OwnerTag(Run(evs, cfg))
  {
    RunKeepsInv(evs, cfg);
  }

  /** While the connection lasts, a final is received as exactly one message: with the
      event's own number and time, filed under the request it belongs to, its text the
      scrub of the agent's streamed text if there is one and of the gateway's otherwise,
      and its media list taken from that same text. Nothing else is received. */
  lemma FinalCarriesStreamedText(evs: seq<Event>, cfg: Config, seqNo: int, state: string, text: string, runId: RunId,
                                 urls: seq<string>, single: string, ts: real)
    requires ListenerEnds !in evs
    ensures var s := Run(evs, cfg);
            var s' := Run(evs + [Chat(seqNo, state, text, runId, urls, single, ts)], cfg);
            var raw := if StreamedText(evs, runId) != "" then StreamedText(evs, runId) else text;
            s'.received == s.received +
              (if state != "final" then []
               else [ClawMessage(OwnerTag(s), seqNo, Scrub.FinalText(raw), "final", ts,
                                 Scrub.MediaPaths(urls, single, raw))])
  {
    var ev := Chat(seqNo, state, text, runId, urls, single, ts);
    RunSnoc(evs, ev, cfg);
    ListeningIff(evs, cfg);
    RememberedIsStreamed(evs, cfg, runId);
    OwnerIsActive(evs, cfg);
    ChatReceives(Run(evs, cfg), seqNo, state, text, runId, urls, single, ts);
  }

  lemma ChatReceives(s: Client, seqNo: int, state: string, text: string, runId: RunId,
                     urls: seq<string>, single: string, ts: real)
    ensures var raw := if AgentTextOf(s, runId) != "" then AgentTextOf(s, runId) else text;
            OnChat(s, MessageOf(s, seqNo, state, text, runId, urls, single, ts)).received == s.received +
              (if state != "final" then []
               else [ClawMessage(TagOf(s.activeMsgId), seqNo, Scrub.FinalText(raw), "final", ts,
                                 Scrub.MediaPaths(urls, single, raw))])
  {
    assert s.received + [] == s.received;
  }

  lemma OnlyChatReceives(evs: seq<Event>, ev: Event, cfg: Config)
    requires !ev.Chat?
    ensures Run(evs + [ev], cfg).received == Run(evs, cfg).received
  {
    RunSnoc(evs, ev, cfg);
    var s := Run(evs, cfg);
    if Enabled(s, ev) {
      if ev.DebounceFires? {
        DebounceFrame(s, ev.t, cfg);
      } else if !ev.Close? {
        BatchesStay(s, ev, cfg);
      }
    }
  }

  /*** What completes the pending future ***/

  function FailureText(existing: string, error: string): string {
    if existing == "" then "[LLM error: " + error + "]"
    else existing + "\n\n\U{26A0}\U{FE0F} **Generation failure:** " + error
  }

  /** What this event completes the open future of request id with, if anything. */
  function Completes(evs: seq<Event>, cfg: Config, id: nat, ev: Event): Option<Outcome> {
    var s := Run(evs, cfg);
    match ev
    case DebounceFires(t) =>
      if t !in s.agg.timers || s.agg.timers[t] != Request(id) then None
      else
        var best := SelectBest(s.agg.Buffer(Request(id)), cfg.minLen);
        if best.Some? then Some(Reply(best.value.text, best.value.mediaPaths)) else None
    case FallbackFires(k) =>
      if k in s.fallbacks && s.fallbacks[k].msg == Request(id) then Some(Reply(s.fallbacks[k].text, [])) else None
    case Rejection(error) => if ListenerEnds in evs then None else Some(Reply("[Error: " + error + "]", []))
    case AgentError(runId, error) =>
      if ListenerEnds in evs then None else Some(Reply(FailureText(StreamedText(evs, runId), error), []))
    case ListenerEnds => if ListenerEnds in evs then None else Some(Dropped)
    case _ => None
  }

  ghost predicate OpenFor(s: Client, id: nat) {
    s.sender != Idle && s.sender.id == id && s.pendingFuture == Some(id) && id < |s.futures| && s.futures[id].Pending?
  }

  lemma OpenIsPending(evs: seq<Event>, cfg: Config, id: nat)
    requires OpenFor(Run(evs, cfg), id)
    ensures var s := Run(evs, cfg);
            && PendingOpen(s) && s.pendingFuture.value == id
            && s.activeMsgId == Some(Request(id)) && s.pendingFutureMsgId == Some(Request(id))
            && s.timedOutMsgId != Some(Request(id))
  {
    RunKeepsInv(evs, cfg);
  }

  /** The partner of CompletedByOwnEvent: an open future is completed by exactly these
      events of exactly its own request, with exactly these outcomes, and stays open
      across every other event. */
  lemma CompletedExactlyBy(evs: seq<Event>, cfg: Config, id: nat, ev: Event)
    requires OpenFor(Run(evs, cfg), id)
    ensures var s' := Run(evs + [ev], cfg);
            var outcome := Completes(evs, cfg, id, ev);
            id < |s'.futures| && s'.futures[id] == if outcome.Some? then Done(outcome.value) else Pending
  {
    RunSnoc(evs, ev, cfg);
    OpenIsPending(evs, cfg, id);
    ListeningIff(evs, cfg);
    var s := Run(evs, cfg);
    match ev
    case DebounceFires(t) =>
      if t in s.agg.timers {
        RunKeepsInv(evs, cfg);
        DebounceCompletes(s, t, cfg, id);
      }
    case FallbackFires(k) => FallbackCompletes(s, k, id);
    case Rejection(error) =>
    case AgentError(runId, error) => RememberedIsStreamed(evs, cfg, runId);
    case ListenerEnds =>
    case _ => OthersComplete(s, ev, cfg, id);
  }

  lemma DebounceCompletes(s: Client, t: TimerId, cfg: Config, id: nat)
    requires s.agg.Inv() && t in s.agg.timers && PendingOpen(s) && s.pendingFuture.value == id
    requires s.pendingFutureMsgId == Some(Request(id)) && s.timedOutMsgId != Some(Request(id))
    ensures var best := SelectBest(s.agg.Buffer(s.agg.timers[t]), cfg.minLen);
            OnDebounce(s, t, cfg).futures ==
              if best.Some? && s.agg.timers[t] == Request(id)
              then s.futures[id := Done(Reply(best.value.text, best.value.mediaPaths))] else s.futures
  {
    SelectBestSound(Popped(s.agg, t), cfg.minLen);
  }

  lemma FallbackCompletes(s: Client, k: nat, id: nat)
    requires PendingOpen(s) && s.pendingFuture.value == id && s.pendingFutureMsgId == Some(Request(id))
    ensures k in s.fallbacks ==>
              OnFallback(s, k).futures == if s.fallbacks[k].msg == Request(id)
                                          then s.futures[id := Done(Reply(s.fallbacks[k].text, []))] else s.futures
  {
  }

  lemma OthersComplete(s: Client, ev: Event, cfg: Config, id: nat)
    requires id < |s.futures| && !IsCompletion(ev) && !ev.DebounceFires?
    ensures id < |Step(s, ev, cfg).futures| && Step(s, ev, cfg).futures[id] == s.futures[id]
  {
  }

  /*** The lifecycle-end fallback ***/

  /** The end of a run schedules one fallback, with the text streamed so far, exactly
      while a request is open and there is a text. */
  lemma EndSchedules(evs: seq<Event>, cfg: Config, id: nat, runId: RunId)
    requires OpenFor(Run(evs, cfg), id) && ListenerEnds !in evs
    ensures var s := Run(evs, cfg);
            Run(evs + [AgentEnd(runId)], cfg).fallbacks ==
              if runId != "" && StreamedText(evs, runId) != ""
              then s.fallbacks[s.nextFallback := Fallback(Request(id), runId, StreamedText(evs, runId))]
              else s.fallbacks
  {
    RunSnoc(evs, AgentEnd(runId), cfg);
    OpenIsPending(evs, cfg, id);
    ListeningIff(evs, cfg);
    RememberedIsStreamed(evs, cfg, runId);
  }

  lemma FallbackStep(s: Client, ev: Event, cfg: Config, k: nat)
    requires k in s.fallbacks && k < s.nextFallback && ev != FallbackFires(k)
    ensures var s' := Step(s, ev, cfg);
            k in s'.fallbacks && s'.fallbacks[k] == s.fallbacks[k] && k < s'.nextFallback
  {
    if ev.DebounceFires? && Enabled(s, ev) {
      DebounceKeepsFallbacks(s, ev.t, cfg);
    }
  }

  lemma DebounceKeepsFallbacks(s: Client, t: TimerId, cfg: Config)
    requires t in s.agg.timers
    ensures OnDebounce(s, t, cfg).fallbacks == s.fallbacks && OnDebounce(s, t, cfg).nextFallback == s.nextFallback
  {
  }

  lemma {:induction false} FallbackStays(evs: seq<Event>, more: seq<Event>, cfg: Config, k: nat)
    requires k in Run(evs, cfg).fallbacks && FallbackFires(k) !in more
    ensures k in Run(evs + more, cfg).fallbacks && Run(evs + more, cfg).fallbacks[k] == Run(evs, cfg).fallbacks[k]
    ensures k < Run(evs + more, cfg).nextFallback
  {
    if more == [] {
      assert evs + more == evs;
      RunKeepsInv(evs, cfg);
    } else {
      var front, ev := more[..|more| - 1], more[|more| - 1];
      assert more == front + [ev];
      FallbackStays(evs, front, cfg, k);
      assert evs + more == (evs + front) + [ev];
      RunSnoc(evs + front, ev, cfg);
      FallbackStep(Run(evs + front, cfg), ev, cfg, k);
    }
  }

  /** A run that ends without a final is still answered: whatever happens in the meantime,
      if the request is open when the fallback fires, it is completed with the text that
      had been streamed when the run ended. */
  lemma LifecycleEndAnswers(evs: seq<Event>, more: seq<Event>, cfg: Config, id: nat, runId: RunId)
    requires OpenFor(Run(evs, cfg), id) && ListenerEnds !in evs
    requires runId != "" && StreamedText(evs, runId) != ""
    requires FallbackFires(Run(evs, cfg).nextFallback) !in more
    requires OpenFor(Run(evs + [AgentEnd(runId)] + more, cfg), id)
    ensures var later := evs + [AgentEnd(runId)] + more + [FallbackFires(Run(evs, cfg).nextFallback)];
            var s := Run(later, cfg);
            id < |s.futures| && s.futures[id] == Done(Reply(StreamedText(evs, runId), []))
  {
    var k := Run(evs, cfg).nextFallback;
    EndSchedules(evs, cfg, id, runId);
    FallbackStays(evs + [AgentEnd(runId)], more, cfg, k);
    CompletedExactlyBy(evs + [AgentEnd(runId)] + more, cfg, id, FallbackFires(k));
  }

  /*** What a send returns ***/

  /** The one result a step of the sender returns, if it ends the send. */
  lemma SendReturns(evs: seq<Event>, cfg: Config, ev: Event)
    requires IsSenderStep(ev) && Enabled(Run(evs, cfg), ev) && !ev.BeginSend?
    ensures var s := Run(evs, cfg);
            var s' := Run(evs + [ev], cfg);
            var id := s.sender.id;
            && (ev.Wake? ==>
                  id < |s.futures| && s.futures[id].Done? &&
                  s'.returned == s.returned + [Return(id, match s.futures[id].outcome
                                                          case Reply(text, media) => Answer(text, media)
                                                          case Dropped => ConnectionLost)])
            && (ev.TimeOut? ==> s'.returned == s.returned + [Return(id, Result.TimedOut)])
            && (ev.Abort? ==> s'.returned == s.returned + [Return(id, Aborted)])
            && (ev.Written? && !WasRejected(s.arrivals, id) ==>
                  s'.sender == Waiting(id, id) && s'.returned == s.returned)
            && (ev.Written? && WasRejected(s.arrivals, id) ==> s'.returned == s.returned + [Return(id, Crashed)])
            && (!ev.Written? ==> s'.sender == Idle)
  {
    RunSnoc(evs, ev, cfg);
    RunKeepsInv(evs, cfg);
  }

  /** A job's summary reaches the callback unless the job was removed, and nothing else
      is delivered for it. */
  lemma CronDelivers(evs: seq<Event>, cfg: Config, action: string, summary: string)
    requires ListenerEnds !in evs
    ensures Run(evs + [CronEvent(action, summary)], cfg).outs == Run(evs, cfg).outs +
              (if cfg.hasProactive && summary != "" && action != "removed" then [Cron(summary)] else [])
  {
    RunSnoc(evs, CronEvent(action, summary), cfg);
    ListeningIff(evs, cfg);
    assert Run(evs, cfg).outs + [] == Run(evs, cfg).outs;
  }
}

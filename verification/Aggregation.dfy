/** src/utils/claw_aggregator.py: finals are buffered per message id behind a
    restartable debounce timer, and the best final of a settled group is emitted. */
module Aggregation {
  import opened PyText

  /** The id an event is filed under: a chat.send request, or "proactive". */
  datatype MsgTag = Proactive | Request(id: nat)

  datatype ClawMessage = ClawMessage(
    msgId: MsgTag, seqNo: int, text: string, state: string, ts: real, mediaPaths: seq<string>)
  {
    predicate IsFinal() { state == "final" }
    predicate NonBlank() { text != [] && Strip(text) != [] }
  }

  /*** Choosing the best final ***/

  const JUNK_EXACT: set<string> := {"ok", "ok.", "thinking", "thinking...", "...", "\U{2026}"}

  predicate IsValidText(text: string, minLen: int) {
    && text != []
    && |Strip(text)| >= minLen
    && Lower(Strip(text)) !in JUNK_EXACT
  }

  /** Space around a text makes no difference to its being a real answer. */
  lemma ValidityIgnoresPadding(lead: string, text: string, tail: string, minLen: int)
    requires minLen >= 1
    requires forall k | 0 <= k < |lead| :: IsSpace(lead[k])
    requires forall k | 0 <= k < |tail| :: IsSpace(tail[k])
    ensures IsValidText(lead + (text + tail), minLen) <==> IsValidText(text, minLen)
    ensures IsValidText(text, minLen) ==> IsValidText(Strip(text), minLen)
  {
    StripPad(lead, text, tail);
    StripIdempotent(text);
  }

  /** The six placeholder tokens, spelled out. */
  predicate IsPlaceholder(word: string) {
    || word == "ok" || word == "ok." || word == "thinking" || word == "thinking..."
    || word == "..." || word == "\U{2026}"
  }

  lemma JunkIsPlaceholders(word: string)
    ensures word in JUNK_EXACT <==> IsPlaceholder(word)
  {
  }

  /** A text is a real answer exactly when, stripped, it is long enough and its lower-case
      form is none of the six tokens. */
  lemma ValidTextIff(text: string, minLen: int)
    ensures IsValidText(text, minLen) <==>
              text != "" && |Strip(text)| >= minLen && !IsPlaceholder(Lower(Strip(text)))
  {
    JunkIsPlaceholders(Lower(Strip(text)));
  }

  predicate LowerOrMark(c: char) { 'a' <= c <= 'z' || c == '.' || c == '\U{2026}' }

  lemma PlaceholderChars(word: string)
    requires IsPlaceholder(word)
    ensures word != "" && forall i | 0 <= i < |word| :: LowerOrMark(word[i])
  {
  }

  lemma StripAnyCase(text: string, word: string)
    requires AnyCase(text, word) && forall i | 0 <= i < |word| :: LowerOrMark(word[i])
    ensures Strip(text) == text
  {
    if text != "" {
      assert LowerOrMark(word[0]) && LowerOrMark(word[|word| - 1]);
      assert !IsSpace(text[0]) && !IsSpace(text[|text| - 1]);
    }
    StripFixed(text);
  }

  /** None of the six is ever a real answer, in any case, with any space around it and for
      any minimum length. */
  lemma PlaceholderIsNotValid(word: string, lead: string, text: string, tail: string, minLen: int)
    requires IsPlaceholder(word) && AnyCase(text, word)
    requires forall k | 0 <= k < |lead| :: IsSpace(lead[k])
    requires forall k | 0 <= k < |tail| :: IsSpace(tail[k])
    ensures !IsValidText(lead + (text + tail), minLen)
  {
    PlaceholderChars(word);
    StripPad(lead, text, tail);
    StripAnyCase(text, word);
    LowerAnyCase(text, word);
    ValidTextIff(lead + (text + tail), minLen);
  }

  function Finals(ms: seq<ClawMessage>): seq<ClawMessage> {
    if ms == [] then []
    else Finals(ms[..|ms| - 1]) + (if ms[|ms| - 1].IsFinal() then [ms[|ms| - 1]] else [])
  }

  function Valid(ms: seq<ClawMessage>, minLen: int): seq<ClawMessage> {
    if ms == [] then []
    else Valid(ms[..|ms| - 1], minLen)
         + (if IsValidText(ms[|ms| - 1].text, minLen) then [ms[|ms| - 1]] else [])
  }

  function NonEmpty(ms: seq<ClawMessage>): seq<ClawMessage> {
    if ms == [] then []
    else NonEmpty(ms[..|ms| - 1]) + (if ms[|ms| - 1].NonBlank() then [ms[|ms| - 1]] else [])
  }

  /** max(ms, key=seq): the first of the messages with the highest sequence number. */
  function MaxBySeq(ms: seq<ClawMessage>): (best: ClawMessage)
    requires ms != []
    ensures best in ms
    ensures forall m | m in ms :: m.seqNo <= best.seqNo
  {
    var last := ms[|ms| - 1];
    if |ms| == 1 then last
    else
      var best := MaxBySeq(ms[..|ms| - 1]);
      assert forall m | m in ms :: m in ms[..|ms| - 1] || m == last;
      if last.seqNo > best.seqNo then last else best
  }

  /** ClawAggregator._select_best */
  function SelectBest(ms: seq<ClawMessage>, minLen: int): Option<ClawMessage> {
    var finals := Finals(ms);
    if finals == [] then None else Choose(finals, minLen)
  }

  /** _select_best past its first filter: real answers first, placeholders otherwise. */
  function Choose(finals: seq<ClawMessage>, minLen: int): Option<ClawMessage> {
    var valid := Valid(finals, minLen);
    if valid != [] then Some(MaxBySeq(valid))
    else
      var nonEmpty := NonEmpty(finals);
      if nonEmpty != [] then Some(MaxBySeq(nonEmpty)) else None
  }

  /*** The same choice as a streaming maximum ***/

  /** 2 for a real answer, 1 for a placeholder, 0 for what is never chosen. */
  function Tier(m: ClawMessage, minLen: int): (tier: nat) {
    if !m.IsFinal() then 0
    else if IsValidText(m.text, minLen) then 2
    else if m.NonBlank() then 1
    else 0
  }

  predicate Beats(m: ClawMessage, best: Option<ClawMessage>, minLen: int) {
    && Tier(m, minLen) > 0
    && (best.Some? ==>
          || Tier(m, minLen) > Tier(best.value, minLen)
          || (Tier(m, minLen) == Tier(best.value, minLen) && m.seqNo > best.value.seqNo))
  }

  function Better(best: Option<ClawMessage>, m: ClawMessage, minLen: int): Option<ClawMessage> {
    if Beats(m, best, minLen) then Some(m) else best
  }

  function FoldBest(best: Option<ClawMessage>, ms: seq<ClawMessage>, minLen: int): Option<ClawMessage> {
    if ms == [] then best
    else Better(FoldBest(best, ms[..|ms| - 1], minLen), ms[|ms| - 1], minLen)
  }

  function Merge(a: Option<ClawMessage>, b: Option<ClawMessage>, minLen: int): Option<ClawMessage> {
    if b.Some? then Better(a, b.value, minLen) else a
  }

  /** What the filter cascade has computed so far, one message at a time. */
  lemma {:induction false} CascadeStep(ms: seq<ClawMessage>, minLen: int)
    requires ms != []
    ensures SelectBest(ms, minLen) == Better(SelectBest(ms[..|ms| - 1], minLen), ms[|ms| - 1], minLen)
  {
    var front, m := ms[..|ms| - 1], ms[|ms| - 1];
    FinalsAreFinal(front);
    if m.IsFinal() {
      ChooseSnoc(Finals(front), m, minLen);
    } else {
      assert Finals(ms) == Finals(front);
    }
  }

  lemma {:induction false} ChooseSnoc(finals: seq<ClawMessage>, m: ClawMessage, minLen: int)
    requires m.IsFinal() && forall f | f in finals :: f.IsFinal()
    ensures Choose(finals + [m], minLen) == Better(Choose(finals, minLen), m, minLen)
  {
    ChooseTier(finals, minLen);
    FilterSnoc(finals, m, minLen);
    MaxSnoc(Valid(finals, minLen), m);
    MaxSnoc(NonEmpty(finals), m);
  }

  lemma FilterSnoc(ms: seq<ClawMessage>, m: ClawMessage, minLen: int)
    ensures Valid(ms + [m], minLen) ==
            if IsValidText(m.text, minLen) then Valid(ms, minLen) + [m] else Valid(ms, minLen)
    ensures NonEmpty(ms + [m]) == if m.NonBlank() then NonEmpty(ms) + [m] else NonEmpty(ms)
  {
    assert (ms + [m])[..|ms|] == ms;
  }

  lemma ChooseTier(finals: seq<ClawMessage>, minLen: int)
    requires forall f | f in finals :: f.IsFinal()
    ensures var best := Choose(finals, minLen);
            && (best.Some? && Valid(finals, minLen) != [] ==> Tier(best.value, minLen) == 2)
            && (best.Some? && Valid(finals, minLen) == [] ==> Tier(best.value, minLen) == 1)
  {
    ValidTier(finals, minLen);
    NonEmptyTier(finals, minLen);
  }

  lemma MaxSnoc(ms: seq<ClawMessage>, m: ClawMessage)
    ensures ms + [m] != []
    ensures ms == [] ==> MaxBySeq(ms + [m]) == m
    ensures ms != [] ==> MaxBySeq(ms + [m]) == if m.seqNo > MaxBySeq(ms).seqNo then m else MaxBySeq(ms)
  {
    assert (ms + [m])[..|ms|] == ms;
  }

  lemma FinalsAreFinal(ms: seq<ClawMessage>)
    ensures forall m | m in Finals(ms) :: m.IsFinal() && m in ms
  {
  }

  lemma {:induction false} ValidTier(ms: seq<ClawMessage>, minLen: int)
    requires forall m | m in ms :: m.IsFinal()
    ensures forall m | m in Valid(ms, minLen) :: m in ms && Tier(m, minLen) == 2
    ensures Valid(ms, minLen) == [] ==> forall m | m in ms :: Tier(m, minLen) < 2
  {
    if ms != [] {
      ValidTier(ms[..|ms| - 1], minLen);
      assert ms == ms[..|ms| - 1] + [ms[|ms| - 1]];
    }
  }

  lemma {:induction false} NonEmptyTier(ms: seq<ClawMessage>, minLen: int)
    requires forall m | m in ms :: m.IsFinal()
    ensures forall m | m in NonEmpty(ms) :: m in ms && Tier(m, minLen) >= 1
    ensures NonEmpty(ms) == [] ==> forall m | m in ms :: !m.NonBlank()
  {
    if ms != [] {
      NonEmptyTier(ms[..|ms| - 1], minLen);
      assert ms == ms[..|ms| - 1] + [ms[|ms| - 1]];
    }
  }

  /** The filter-then-max cascade is a left fold over (tier, sequence number). */
  lemma {:induction false} SelectBestIsFold(ms: seq<ClawMessage>, minLen: int)
    ensures SelectBest(ms, minLen) == FoldBest(None, ms, minLen)
  {
    if ms != [] {
      CascadeStep(ms, minLen);
      SelectBestIsFold(ms[..|ms| - 1], minLen);
    }
  }

  lemma FoldHasTier(ms: seq<ClawMessage>, minLen: int)
    ensures FoldBest(None, ms, minLen).Some? ==> Tier(FoldBest(None, ms, minLen).value, minLen) > 0
  {
    FoldSound(ms, minLen);
  }

  lemma MergeBetter(a: Option<ClawMessage>, b: Option<ClawMessage>, m: ClawMessage, minLen: int)
    requires b.Some? ==> Tier(b.value, minLen) > 0
    ensures Merge(a, Better(b, m, minLen), minLen) == Better(Merge(a, b, minLen), m, minLen)
  {
  }

  lemma {:induction false} FoldConcat(a: seq<ClawMessage>, b: seq<ClawMessage>, minLen: int)
    ensures FoldBest(None, a + b, minLen) == Merge(FoldBest(None, a, minLen), FoldBest(None, b, minLen), minLen)
  {
    if b == [] {
      assert a + b == a;
    } else {
      var front, m := b[..|b| - 1], b[|b| - 1];
      assert (a + b)[..|a + b| - 1] == a + front;
      FoldConcat(a, front, minLen);
      FoldHasTier(front, minLen);
      MergeBetter(FoldBest(None, a, minLen), FoldBest(None, front, minLen), m, minLen);
    }
  }

  /** Any two groups can be judged separately and their winners compared. */
  lemma SelectBestConcat(a: seq<ClawMessage>, b: seq<ClawMessage>, minLen: int)
    ensures SelectBest(a + b, minLen) == Merge(SelectBest(a, minLen), SelectBest(b, minLen), minLen)
  {
    SelectBestIsFold(a, minLen);
    SelectBestIsFold(b, minLen);
    SelectBestIsFold(a + b, minLen);
    FoldConcat(a, b, minLen);
  }

  /** The winner is a received final that nothing received beats. */
  lemma {:induction false} SelectBestSound(ms: seq<ClawMessage>, minLen: int)
    ensures var best := SelectBest(ms, minLen);
            && (best.Some? ==> best.value in ms && Tier(best.value, minLen) > 0)
            && (forall m | m in ms :: !Beats(m, best, minLen))
  {
    SelectBestIsFold(ms, minLen);
    FoldSound(ms, minLen);
  }

  lemma {:induction false} FoldSound(ms: seq<ClawMessage>, minLen: int)
    ensures var best := FoldBest(None, ms, minLen);
            && (best.Some? ==> best.value in ms && Tier(best.value, minLen) > 0)
            && (forall m | m in ms :: !Beats(m, best, minLen))
  {
    if ms != [] {
      var front, last := ms[..|ms| - 1], ms[|ms| - 1];
      FoldSound(front, minLen);
      var before := FoldBest(None, front, minLen);
      forall m | m in ms
        ensures !Beats(m, Better(before, last, minLen), minLen)
      {
        assert m in front || m == last;
      }
    }
  }

  /** A placeholder never displaces a real answer, wherever it arrives, and a
      group is dropped exactly when it holds nothing but blank finals. */
  lemma PlaceholderNeverWins(ms: seq<ClawMessage>, minLen: int)
    requires minLen >= 1
    ensures var best := SelectBest(ms, minLen);
            && (best.Some? <==> exists m :: m in ms && m.IsFinal() && m.NonBlank())
            && ((exists m :: m in ms && m.IsFinal() && IsValidText(m.text, minLen)) ==>
                  best.Some? && IsValidText(best.value.text, minLen))
  {
    SelectBestSound(ms, minLen);
    var best := SelectBest(ms, minLen);
    if m :| m in ms && m.IsFinal() && m.NonBlank() {
      assert Tier(m, minLen) > 0 && !Beats(m, best, minLen);
    }
    if m :| m in ms && m.IsFinal() && IsValidText(m.text, minLen) {
      assert Tier(m, minLen) == 2 && !Beats(m, best, minLen);
    }
  }

  /** Of a real answer and a placeholder the answer is chosen, whichever came first and
      whatever their sequence numbers. */
  lemma AnswerBeatsPlaceholder(answer: ClawMessage, other: ClawMessage, minLen: int)
    requires answer.IsFinal() && other.IsFinal()
    requires answer.text != "" && |Strip(answer.text)| >= minLen && !IsPlaceholder(Lower(Strip(answer.text)))
    requires IsPlaceholder(Lower(Strip(other.text)))
    ensures SelectBest([answer, other], minLen) == Some(answer)
    ensures SelectBest([other, answer], minLen) == Some(answer)
  {
    AnswerTier(answer, minLen);
    PlaceholderTier(other, minLen);
    OnlyRealAnswerWins([answer, other], answer, minLen);
    OnlyRealAnswerWins([other, answer], answer, minLen);
  }

  lemma AnswerTier(m: ClawMessage, minLen: int)
    requires m.IsFinal() && m.text != "" && |Strip(m.text)| >= minLen && !IsPlaceholder(Lower(Strip(m.text)))
    ensures Tier(m, minLen) == 2
  {
    ValidTextIff(m.text, minLen);
  }

  lemma PlaceholderTier(m: ClawMessage, minLen: int)
    requires IsPlaceholder(Lower(Strip(m.text)))
    ensures Tier(m, minLen) < 2
  {
    ValidTextIff(m.text, minLen);
  }

  lemma OnlyRealAnswerWins(ms: seq<ClawMessage>, answer: ClawMessage, minLen: int)
    requires answer in ms && Tier(answer, minLen) == 2
    requires forall m | m in ms && m != answer :: Tier(m, minLen) < 2
    ensures SelectBest(ms, minLen) == Some(answer)
  {
    SelectBestSound(ms, minLen);
    assert !Beats(answer, SelectBest(ms, minLen), minLen);
  }

  /** Message j does better than message i: a higher tier, or the same and a higher number. */
  predicate Outranks(a: ClawMessage, b: ClawMessage, minLen: int) {
    Tier(a, minLen) > Tier(b, minLen) || (Tier(a, minLen) == Tier(b, minLen) && a.seqNo > b.seqNo)
  }

  /** Message k outranks everything received before it, and nothing received after it
      outranks it. */
  ghost predicate EarliestBest(ms: seq<ClawMessage>, k: int, minLen: int) {
    && 0 <= k < |ms|
    && (forall i | 0 <= i < k :: Outranks(ms[k], ms[i], minLen))
    && (forall i | k < i < |ms| :: !Outranks(ms[i], ms[k], minLen))
  }

  /** The winner is the earliest of the best: ties go to the first received. */
  lemma EarliestWinsTies(ms: seq<ClawMessage>, minLen: int) returns (k: nat)
    requires SelectBest(ms, minLen).Some?
    ensures EarliestBest(ms, k, minLen) && SelectBest(ms, minLen) == Some(ms[k])
  {
    SelectBestIsFold(ms, minLen);
    k := FoldEarliest(ms, minLen);
  }

  lemma BeatsMeansOutranks(m: ClawMessage, best: Option<ClawMessage>, last: ClawMessage, minLen: int)
    requires !Beats(m, best, minLen) && Beats(last, best, minLen)
    ensures Outranks(last, m, minLen)
  {
  }

  lemma NotBeatsMeansNotOutranks(best: ClawMessage, last: ClawMessage, minLen: int)
    requires !Beats(last, Some(best), minLen)
    ensures !Outranks(last, best, minLen) || Tier(last, minLen) == 0
    ensures Tier(best, minLen) > 0 ==> !Outranks(last, best, minLen)
  {
  }

  lemma LaterStays(front: seq<ClawMessage>, k: nat, last: ClawMessage, minLen: int)
    requires EarliestBest(front, k, minLen) && !Outranks(last, front[k], minLen)
    ensures EarliestBest(front + [last], k, minLen)
  {
    var ms := front + [last];
    forall i | k < i < |ms|
      ensures !Outranks(ms[i], ms[k], minLen)
    {
      assert i < |front| ==> ms[i] == front[i];
    }
  }

  lemma LastTakesOver(front: seq<ClawMessage>, best: Option<ClawMessage>, last: ClawMessage, minLen: int)
    requires forall m | m in front :: !Beats(m, best, minLen)
    requires Beats(last, best, minLen)
    ensures EarliestBest(front + [last], |front|, minLen)
  {
    var ms := front + [last];
    forall i | 0 <= i < |front|
      ensures Outranks(ms[|front|], ms[i], minLen)
    {
      assert ms[i] == front[i] && front[i] in front;
      BeatsMeansOutranks(front[i], best, last, minLen);
    }
  }

  lemma {:induction false} FoldEarliest(ms: seq<ClawMessage>, minLen: int) returns (k: nat)
    requires FoldBest(None, ms, minLen).Some?
    ensures EarliestBest(ms, k, minLen) && FoldBest(None, ms, minLen) == Some(ms[k])
  {
    var front, last := ms[..|ms| - 1], ms[|ms| - 1];
    var before := FoldBest(None, front, minLen);
    assert ms == front + [last];
    if Beats(last, before, minLen) {
      FoldSound(front, minLen);
      LastTakesOver(front, before, last, minLen);
      k := |front|;
    } else {
      k := FoldEarliest(front, minLen);
      FoldHasTier(front, minLen);
      NotBeatsMeansNotOutranks(front[k], last, minLen);
      LaterStays(front, k, last, minLen);
    }
  }

  /*** The buffering machine ***/

  /** The messages filed under one id, in order. */
  function FinalsOf(ms: seq<ClawMessage>, id: MsgTag): seq<ClawMessage> {
    if ms == [] then []
    else FinalsOf(ms[..|ms| - 1], id) + (if ms[|ms| - 1].msgId == id then [ms[|ms| - 1]] else [])
  }

  type TimerId = nat

  /** `tasks` is the aggregator's own dictionary; `timers` are the debounce tasks
      the event loop still has asleep, each with the id it was created for. */
  datatype AggState = AggState(
    buffers: map<MsgTag, seq<ClawMessage>>,
    tasks: map<MsgTag, TimerId>,
    timers: map<TimerId, MsgTag>,
    nextTimer: TimerId)
  {
    function Buffer(id: MsgTag): seq<ClawMessage> {
      if id in buffers then buffers[id] else []
    }

    /** Every buffered id has exactly one live timer, and nothing else sleeps. */
    ghost predicate Inv() {
      buffers.Keys == tasks.Keys && TimersMatch() && BuffersFiled()
    }

    ghost predicate TimersMatch() {
      && (forall id | id in tasks :: tasks[id] in timers && timers[tasks[id]] == id)
      && (forall t | t in timers :: t < nextTimer && timers[t] in tasks && tasks[timers[t]] == t)
    }

    ghost predicate BuffersFiled() {
      && (forall id | id in buffers :: buffers[id] != [])
      && (forall id, m | id in buffers && m in buffers[id] :: m.msgId == id && m.IsFinal())
    }
  }

  const EMPTY := AggState(map[], map[], map[], 0)

  /** ClawAggregator.add_event */
  function AddEvent(s: AggState, m: ClawMessage): AggState {
    if !m.IsFinal() then s
    else AggState(
           s.buffers[m.msgId := s.Buffer(m.msgId) + [m]],
           s.tasks[m.msgId := s.nextTimer],
           (if m.msgId in s.tasks then s.timers - {s.tasks[m.msgId]} else s.timers)[s.nextTimer := m.msgId],
           s.nextTimer + 1)
  }

  /** ClawAggregator._finalize_later after its sleep: what it pops, and the state left. */
  function Popped(s: AggState, t: TimerId): seq<ClawMessage>
    requires t in s.timers
  {
    s.Buffer(s.timers[t])
  }

  function Finalize(s: AggState, t: TimerId): AggState
    requires t in s.timers
  {
    var id := s.timers[t];
    AggState(s.buffers - {id}, s.tasks - {id}, s.timers - {t}, s.nextTimer)
  }

  /** ClawAggregator.cancel_all */
  function CancelAll(s: AggState): AggState {
    AggState(map[], map[], s.timers - s.tasks.Values, s.nextTimer)
  }

  lemma AddEventKeepsTimers(s: AggState, m: ClawMessage)
    requires s.TimersMatch()
    ensures AddEvent(s, m).TimersMatch()
  {
  }

  lemma AddEventKeepsBuffers(s: AggState, m: ClawMessage)
    requires s.BuffersFiled()
    ensures AddEvent(s, m).BuffersFiled()
  {
  }

  lemma AddEventKeepsInv(s: AggState, m: ClawMessage)
    requires s.Inv()
    ensures AddEvent(s, m).Inv()
  {
    AddEventKeepsTimers(s, m);
    AddEventKeepsBuffers(s, m);
  }

  lemma AddEventMembers(s: AggState, m: ClawMessage)
    ensures forall id, x | id in AddEvent(s, m).buffers && x in AddEvent(s, m).buffers[id] ::
              x == m || (id in s.buffers && x in s.buffers[id])
  {
  }

  lemma FinalizeKeepsInv(s: AggState, t: TimerId)
    requires s.Inv() && t in s.timers
    ensures Finalize(s, t).Inv()
    ensures Popped(s, t) != []
  {
  }

  lemma CancelAllKeepsInv(s: AggState)
    requires s.Inv()
    ensures CancelAll(s).Inv() && CancelAll(s).timers == map[]
  {
    forall t | t in s.timers
      ensures t in s.tasks.Values
    {
      assert s.timers[t] in s.tasks.Keys;
    }
  }

  /** One live timer per buffered id, as the source's two dictionaries hold it. */
  class ClawAggregator {
    const minLen: int
    var buffers: map<MsgTag, seq<ClawMessage>>
    var tasks: map<MsgTag, TimerId>
    var timers: map<TimerId, MsgTag>
    var nextTimer: TimerId

    ghost function View(): AggState
      reads this
    {
      AggState(buffers, tasks, timers, nextTimer)
    }

    constructor (minLen: int)
      ensures this.minLen == minLen
      ensures View() == EMPTY && View().Inv()
    {
      this.minLen := minLen;
      buffers, tasks, timers, nextTimer := map[], map[], map[], 0;
    }

    method CreateTask(id: MsgTag) returns (t: TimerId)
      modifies this`timers, this`nextTimer
      ensures t == old(nextTimer) && nextTimer == t + 1
      ensures timers == old(timers)[t := id]
    {
      t := nextTimer;
      timers := timers[t := id];
      nextTimer := nextTimer + 1;
    }

    method Add(m: ClawMessage)
      modifies this
      ensures View() == AddEvent(old(View()), m)
      ensures old(View()).Inv() ==> View().Inv()
    {
      if View().Inv() {
        AddEventKeepsInv(View(), m);
      }
      if !m.IsFinal() {
        return;
      }
      Append(m);
      if m.msgId in tasks {
        timers := timers - {tasks[m.msgId]};
      }
      var t := CreateTask(m.msgId);
      tasks := tasks[m.msgId := t];
    }

    /** `setdefault(...).append(...)` */
    method Append(m: ClawMessage)
      modifies this`buffers
      ensures buffers == old(buffers)[m.msgId := old(View()).Buffer(m.msgId) + [m]]
    {
      if m.msgId !in buffers {
        buffers := buffers[m.msgId := []];
      }
      buffers := buffers[m.msgId := buffers[m.msgId] + [m]];
    }

    method FinalizeLater(t: TimerId) returns (best: Option<ClawMessage>)
      requires t in timers
      modifies this
      ensures View() == Finalize(old(View()), t)
      ensures best == SelectBest(Popped(old(View()), t), minLen)
      ensures old(View()).Inv() ==> View().Inv()
    {
      if View().Inv() {
        FinalizeKeepsInv(View(), t);
      }
      var id := timers[t];
      timers := timers - {t};
      var messages := if id in buffers then buffers[id] else [];
      buffers := buffers - {id};
      tasks := tasks - {id};
      best := SelectBest(messages, minLen);
    }

    method CancelAllTimers()
      modifies this
      ensures View() == CancelAll(old(View()))
      ensures old(View()).Inv() ==> View().Inv() && timers == map[]
    {
      if View().Inv() {
        CancelAllKeepsInv(View());
      }
      var live := tasks.Values;
      while live != {}
        invariant timers == old(timers) - (old(tasks).Values - live)
        invariant live <= old(tasks).Values
        invariant tasks == old(tasks) && buffers == old(buffers) && nextTimer == old(nextTimer)
        decreases live
      {
        var t :| t in live;
        timers := timers - {t};
        live := live - {t};
      }
      tasks, buffers := map[], map[];
    }
  }
}

/** The aggregator under exact timers: its groups are the pure splitting of the
    received finals at gaps of the debounce window. */
module Debounce {
  import opened Aggregation

  datatype Group = Group(id: MsgTag, finals: seq<ClawMessage>)

  /** The aggregator with the moment each timer is due, the clock, and two logs. */
  datatype Timed = Timed(
    agg: AggState,
    due: map<TimerId, real>,
    now: real,
    received: seq<ClawMessage>,
    groups: seq<Group>)

  /** An event arrives at its own time stamp; a timer fires when it is due. */
  datatype Event = Arrive(m: ClawMessage) | Fire(t: TimerId)

  /** Exact timers: the clock never passes a moment at which a timer is due. */
  predicate Enabled(s: Timed, ev: Event) {
    match ev
    case Arrive(m) =>
      s.now <= m.ts && forall t | t in s.agg.timers && t in s.due :: m.ts <= s.due[t]
    case Fire(t) =>
      t in s.agg.timers && t in s.due && forall u | u in s.agg.timers && u in s.due :: s.due[t] <= s.due[u]
  }

  /** An event that is not enabled leaves the state alone. */
  function Step(s: Timed, ev: Event, window: real): Timed {
    if !Enabled(s, ev) then s
    else
      match ev
      case Arrive(m) =>
        if !m.IsFinal() then s.(now := m.ts)
        else s.(agg := AddEvent(s.agg, m),
                due := s.due[s.agg.nextTimer := m.ts + window],
                now := m.ts,
                received := s.received + [m])
      case Fire(t) =>
        s.(agg := Finalize(s.agg, t),
           now := s.due[t],
           groups := s.groups + [Group(s.agg.timers[t], Popped(s.agg, t))])
  }

  function Run(evs: seq<Event>, start: real, window: real): Timed {
    if evs == [] then Timed(EMPTY, map[], start, [], [])
    else Step(Run(evs[..|evs| - 1], start, window), evs[|evs| - 1], window)
  }

  /*** The specification ***/

  function GroupsOf(groups: seq<Group>, id: MsgTag): seq<seq<ClawMessage>> {
    if groups == [] then []
    else GroupsOf(groups[..|groups| - 1], id)
         + (if groups[|groups| - 1].id == id then [groups[|groups| - 1].finals] else [])
  }

  function Flatten(parts: seq<seq<ClawMessage>>): seq<ClawMessage> {
    if parts == [] then [] else Flatten(parts[..|parts| - 1]) + parts[|parts| - 1]
  }

  function Last<T>(s: seq<T>): T
    requires s != []
  {
    s[|s| - 1]
  }

  /** Emitted groups for an id, then what is still buffered for it. */
  function Parts(s: Timed, id: MsgTag): seq<seq<ClawMessage>> {
    GroupsOf(s.groups, id) + (if s.agg.Buffer(id) == [] then [] else [s.agg.Buffer(id)])
  }

  /** Non-empty parts, at most a window between neighbours inside a part and at
      least a window across a boundary; a gap of exactly a window may go either way. */
  ghost predicate IsSplit(parts: seq<seq<ClawMessage>>, window: real) {
    && (forall k | 0 <= k < |parts| :: parts[k] != [])
    && (forall k, i | 0 <= k < |parts| && 0 < i < |parts[k]| :: parts[k][i].ts - parts[k][i - 1].ts <= window)
    && (forall k | 0 < k < |parts| :: parts[k][0].ts - Last(parts[k - 1]).ts >= window)
  }

  /** The splitting as a function, with every tie broken towards a new group. */
  function Split(xs: seq<ClawMessage>, window: real): (parts: seq<seq<ClawMessage>>)
    ensures forall k | 0 <= k < |parts| :: parts[k] != []
  {
    if xs == [] then []
    else
      var parts, x := Split(xs[..|xs| - 1], window), Last(xs);
      if parts == [] || x.ts - Last(Last(parts)).ts >= window then parts + [[x]]
      else parts[..|parts| - 1] + [Last(parts) + [x]]
  }

  ghost predicate NoTies(xs: seq<ClawMessage>, window: real) {
    forall i | 0 < i < |xs| :: xs[i].ts - xs[i - 1].ts != window
  }

  /*** The machine keeps the specification ***/

  ghost predicate Inv(s: Timed, window: real) {
    TimersOk(s, window) && forall id :: IdInv(s, id, window)
  }

  ghost predicate TimersOk(s: Timed, window: real) {
    && s.agg.Inv()
    && (forall t | t in s.agg.timers :: t in s.due && s.now <= s.due[t])
    && (forall id | id in s.agg.tasks :: s.due[s.agg.tasks[id]] == Last(s.agg.buffers[id]).ts + window)
  }

  ghost predicate IdInv(s: Timed, id: MsgTag, window: real) {
    var parts := Parts(s, id);
    && Flatten(parts) == FinalsOf(s.received, id)
    && IsSplit(parts, window)
    && (s.agg.Buffer(id) == [] && parts != [] ==> Last(Last(parts)).ts + window <= s.now)
  }

  lemma ArriveKeepsTimers(s: Timed, m: ClawMessage, window: real)
    requires TimersOk(s, window) && Enabled(s, Arrive(m)) && window >= 0.0
    ensures TimersOk(Step(s, Arrive(m), window), window)
  {
    if m.IsFinal() {
      AddEventKeepsInv(s.agg, m);
    }
  }

  lemma ArriveFrame(s: Timed, m: ClawMessage, window: real, id: MsgTag)
    requires m.IsFinal() ==> id != m.msgId
    ensures var s' := Step(s, Arrive(m), window);
            && s'.agg.Buffer(id) == s.agg.Buffer(id) && s'.groups == s.groups
            && FinalsOf(s'.received, id) == FinalsOf(s.received, id)
  {
    assert (s.received + [m])[..|s.received|] == s.received;
    assert FinalsOf(s.received, id) + [] == FinalsOf(s.received, id);
  }

  lemma ArriveKeepsOther(s: Timed, m: ClawMessage, window: real, id: MsgTag)
    requires Enabled(s, Arrive(m)) && IdInv(s, id, window) && (m.IsFinal() ==> id != m.msgId)
    ensures IdInv(Step(s, Arrive(m), window), id, window)
  {
    ArriveFrame(s, m, window, id);
    assert Parts(Step(s, Arrive(m), window), id) == Parts(s, id);
  }

  lemma ArriveKeepsInv(s: Timed, m: ClawMessage, window: real)
    requires Inv(s, window) && Enabled(s, Arrive(m)) && window >= 0.0
    ensures Inv(Step(s, Arrive(m), window), window)
  {
    ArriveKeepsTimers(s, m, window);
    forall id
      ensures IdInv(Step(s, Arrive(m), window), id, window)
    {
      assert IdInv(s, id, window);
      if m.IsFinal() && id == m.msgId {
        BufferIsOpen(s, m, window);
        ArriveExtends(s, m, window);
      } else {
        ArriveKeepsOther(s, m, window, id);
      }
    }
  }

  lemma BufferIsOpen(s: Timed, m: ClawMessage, window: real)
    requires TimersOk(s, window) && Enabled(s, Arrive(m))
    ensures s.agg.Buffer(m.msgId) != [] ==> m.ts <= Last(s.agg.Buffer(m.msgId)).ts + window
  {
    if m.msgId in s.agg.tasks {
      assert s.due[s.agg.tasks[m.msgId]] == Last(s.agg.buffers[m.msgId]).ts + window;
    }
  }

  /** An arriving final either continues its id's open part or opens a new one. */
  lemma ArriveExtends(s: Timed, m: ClawMessage, window: real)
    requires IdInv(s, m.msgId, window) && Enabled(s, Arrive(m)) && m.IsFinal()
    requires s.agg.Buffer(m.msgId) != [] ==> m.ts <= Last(s.agg.Buffer(m.msgId)).ts + window
    ensures IdInv(Step(s, Arrive(m), window), m.msgId, window)
  {
    var id := m.msgId;
    var s' := Step(s, Arrive(m), window);
    var parts, parts' := Parts(s, id), Parts(s', id);
    var buf := s.agg.Buffer(id);
    assert s'.received[..|s.received|] == s.received;
    if buf == [] {
      assert s'.agg.Buffer(id) == [m];
      assert parts' == parts + [[m]];
      OpenPart(parts, m, window);
    } else {
      assert Last(parts) == buf;
      assert parts' == parts[..|parts| - 1] + [Last(parts) + [m]];
      ExtendPart(parts, m, window);
    }
  }

  lemma OpenPart(parts: seq<seq<ClawMessage>>, m: ClawMessage, window: real)
    requires IsSplit(parts, window)
    requires parts != [] ==> m.ts - Last(Last(parts)).ts >= window
    ensures IsSplit(parts + [[m]], window)
    ensures Flatten(parts + [[m]]) == Flatten(parts) + [m]
  {
    assert (parts + [[m]])[..|parts|] == parts;
  }

  lemma ExtendKeepsGaps(parts: seq<seq<ClawMessage>>, m: ClawMessage, window: real)
    requires IsSplit(parts, window) && parts != [] && m.ts - Last(Last(parts)).ts <= window
    ensures IsSplit(parts[..|parts| - 1] + [Last(parts) + [m]], window)
  {
    var longer: seq<seq<ClawMessage>> := parts[..|parts| - 1] + [Last(parts) + [m]];
    forall k, i | 0 <= k < |longer| && 0 < i < |longer[k]|
      ensures longer[k][i].ts - longer[k][i - 1].ts <= window
    {
      if k < |parts| - 1 || i < |Last(parts)| {
        assert longer[k][i] == parts[k][i] && longer[k][i - 1] == parts[k][i - 1];
      }
    }
  }

  lemma ExtendPart(parts: seq<seq<ClawMessage>>, m: ClawMessage, window: real)
    requires IsSplit(parts, window) && parts != []
    requires m.ts - Last(Last(parts)).ts <= window
    ensures var longer := parts[..|parts| - 1] + [Last(parts) + [m]];
            && IsSplit(longer, window)
            && Flatten(longer) == Flatten(parts) + [m]
  {
    ExtendKeepsGaps(parts, m, window);
    var longer := parts[..|parts| - 1] + [Last(parts) + [m]];
    assert longer[..|parts| - 1] == parts[..|parts| - 1];
    assert Flatten(parts[..|parts| - 1]) + (Last(parts) + [m]) == Flatten(parts) + [m];
  }

  lemma FireKeepsTimers(s: Timed, t: TimerId, window: real)
    requires TimersOk(s, window) && Enabled(s, Fire(t))
    ensures TimersOk(Step(s, Fire(t), window), window)
  {
    FinalizeKeepsInv(s.agg, t);
  }

  /** The fired buffer becomes the last group: the parts stay the same. */
  lemma FireKeepsParts(s: Timed, t: TimerId, window: real, id: MsgTag)
    requires TimersOk(s, window) && Enabled(s, Fire(t))
    ensures Parts(Step(s, Fire(t), window), id) == Parts(s, id)
  {
    var s' := Step(s, Fire(t), window);
    assert s'.groups[..|s.groups|] == s.groups;
    var fired := s.agg.timers[t];
    if id == fired {
      assert s'.agg.Buffer(id) == [] && s.agg.Buffer(id) != [];
    } else {
      assert s'.agg.Buffer(id) == s.agg.Buffer(id);
      assert GroupsOf(s.groups, id) + [] == GroupsOf(s.groups, id);
    }
  }

  lemma FireKeepsInv(s: Timed, t: TimerId, window: real)
    requires Inv(s, window) && Enabled(s, Fire(t)) && window >= 0.0
    ensures Inv(Step(s, Fire(t), window), window)
  {
    FireKeepsTimers(s, t, window);
    forall id
      ensures IdInv(Step(s, Fire(t), window), id, window)
    {
      FireKeepsId(s, t, window, id);
    }
  }

  lemma FireKeepsId(s: Timed, t: TimerId, window: real, id: MsgTag)
    requires Inv(s, window) && Enabled(s, Fire(t))
    ensures IdInv(Step(s, Fire(t), window), id, window)
  {
    assert IdInv(s, id, window);
    FireKeepsParts(s, t, window, id);
    if id == s.agg.timers[t] {
      assert s.due[s.agg.tasks[id]] == Last(s.agg.buffers[id]).ts + window;
      assert Last(Parts(s, id)) == s.agg.buffers[id];
    } else {
      assert Step(s, Fire(t), window).agg.Buffer(id) == s.agg.Buffer(id);
    }
  }

  lemma {:induction false} RunKeepsInv(evs: seq<Event>, start: real, window: real)
    requires window >= 0.0
    ensures Inv(Run(evs, start, window), window)
  {
    if evs != [] {
      var before := evs[..|evs| - 1];
      RunKeepsInv(before, start, window);
      match evs[|evs| - 1]
      case Arrive(m) =>
        if Enabled(Run(before, start, window), Arrive(m)) {
          ArriveKeepsInv(Run(before, start, window), m, window);
        }
      case Fire(t) =>
        if Enabled(Run(before, start, window), Fire(t)) {
          FireKeepsInv(Run(before, start, window), t, window);
        }
    }
  }

  /** In every run and for every id, the emitted groups followed by the buffer give
      back the received finals in order, and they are a debounce splitting of them. */
  lemma GroupsAreSplit(evs: seq<Event>, start: real, window: real, id: MsgTag)
    requires window >= 0.0
    ensures var s := Run(evs, start, window);
            && Flatten(Parts(s, id)) == FinalsOf(s.received, id)
            && IsSplit(Parts(s, id), window)
  {
    RunKeepsInv(evs, start, window);
    assert IdInv(Run(evs, start, window), id, window);
  }

  /** Every buffered id has exactly one live timer, due a window after its last final;
      nothing else sleeps. */
  lemma OneLiveTimer(evs: seq<Event>, start: real, window: real, t: TimerId, u: TimerId)
    requires window >= 0.0
    requires t in Run(evs, start, window).agg.timers && u in Run(evs, start, window).agg.timers
    ensures var s := Run(evs, start, window);
            && (forall id :: id in s.agg.buffers <==> id in s.agg.timers.Values)
            && (s.agg.timers[t] == s.agg.timers[u] ==> t == u)
            && t in s.due && s.agg.Buffer(s.agg.timers[t]) != []
            && s.due[t] == Last(s.agg.Buffer(s.agg.timers[t])).ts + window
  {
    RunKeepsInv(evs, start, window);
    var s := Run(evs, start, window);
    forall id | id in s.agg.buffers
      ensures id in s.agg.timers.Values
    {
      assert s.agg.timers[s.agg.tasks[id]] == id;
    }
  }

  /** Away from ties a sequence has only one debounce splitting. */
  lemma {:induction false} SplitUnique(parts: seq<seq<ClawMessage>>, window: real)
    requires IsSplit(parts, window) && NoTies(Flatten(parts), window)
    ensures parts == Split(Flatten(parts), window)
    decreases |Flatten(parts)|
  {
    if parts != [] {
      var front, last := parts[..|parts| - 1], Last(parts);
      assert parts == front + [last];
      if |last| == 1 {
        assert last == [last[0]] && front + [[last[0]]] == parts;
        LastOpens(front, last[0], window);
        SplitUnique(front, window);
        SplitSnocOpen(front, last[0], window);
      } else {
        var shorter := front + [last[..|last| - 1]];
        LastExtends(front, last, window);
        SplitUnique(shorter, window);
        SplitSnocExtend(shorter, Last(last), window);
      }
    }
  }

  lemma LastOpens(front: seq<seq<ClawMessage>>, x: ClawMessage, window: real)
    requires IsSplit(front + [[x]], window) && NoTies(Flatten(front + [[x]]), window)
    ensures IsSplit(front, window) && NoTies(Flatten(front), window)
    ensures |Flatten(front)| < |Flatten(front + [[x]])|
  {
    SplitSnocOpen(front, x, window);
    NoTiesFront(Flatten(front), x, window);
  }

  /** The last part without its last final, and back. */
  lemma LastExtends(front: seq<seq<ClawMessage>>, last: seq<ClawMessage>, window: real)
    requires |last| > 1 && IsSplit(front + [last], window) && NoTies(Flatten(front + [last]), window)
    ensures var shorter := front + [last[..|last| - 1]];
            && IsSplit(shorter, window) && NoTies(Flatten(shorter), window)
            && Last(last).ts - Last(Last(shorter)).ts <= window
            && shorter[..|shorter| - 1] + [Last(shorter) + [Last(last)]] == front + [last]
            && |Flatten(shorter)| < |Flatten(front + [last])|
  {
    var shorter := front + [last[..|last| - 1]];
    ShortenKeepsSplit(front, last, window);
    assert shorter[..|front|] == front && Last(shorter) + [Last(last)] == last;
    ExtendPart(shorter, Last(last), window);
    NoTiesFront(Flatten(shorter), Last(last), window);
  }

  lemma NoTiesFront(xs: seq<ClawMessage>, x: ClawMessage, window: real)
    requires NoTies(xs + [x], window)
    ensures NoTies(xs, window)
  {
    forall i | 0 < i < |xs|
      ensures xs[i].ts - xs[i - 1].ts != window
    {
      assert (xs + [x])[i] == xs[i] && (xs + [x])[i - 1] == xs[i - 1];
    }
  }

  lemma ShortenKeepsSplit(front: seq<seq<ClawMessage>>, last: seq<ClawMessage>, window: real)
    requires |last| > 1 && IsSplit(front + [last], window)
    ensures IsSplit(front + [last[..|last| - 1]], window)
    ensures last[|last| - 1].ts - last[|last| - 2].ts <= window
  {
    var longer: seq<seq<ClawMessage>> := front + [last];
    var shorter: seq<seq<ClawMessage>> := front + [last[..|last| - 1]];
    assert longer[|front|] == last;
    assert forall k | 0 <= k < |front| :: shorter[k] == longer[k] && longer[k] != [];
    forall k, i | 0 <= k < |shorter| && 0 < i < |shorter[k]|
      ensures shorter[k][i].ts - shorter[k][i - 1].ts <= window
    {
      assert shorter[k][i] == longer[k][i] && shorter[k][i - 1] == longer[k][i - 1];
    }
    forall k | 0 < k < |shorter|
      ensures shorter[k][0].ts - Last(shorter[k - 1]).ts >= window
    {
      assert shorter[k][0] == longer[k][0] && shorter[k - 1] == longer[k - 1];
    }
  }

  lemma SplitSnocOpen(parts: seq<seq<ClawMessage>>, x: ClawMessage, window: real)
    requires IsSplit(parts + [[x]], window)
    ensures Flatten(parts + [[x]]) == Flatten(parts) + [x]
    ensures IsSplit(parts, window)
    ensures Split(Flatten(parts), window) == parts ==> Split(Flatten(parts + [[x]]), window) == parts + [[x]]
  {
    var longer := parts + [[x]];
    assert longer[..|parts|] == parts && longer[|parts|] == [x];
    assert (Flatten(parts) + [x])[..|Flatten(parts)|] == Flatten(parts);
    if parts != [] {
      assert longer[|parts| - 1] == Last(parts);
    }
    forall k | 0 < k < |parts|
      ensures parts[k][0].ts - Last(parts[k - 1]).ts >= window
    {
      assert longer[k] == parts[k] && longer[k - 1] == parts[k - 1];
    }
    forall k, i | 0 <= k < |parts| && 0 < i < |parts[k]|
      ensures parts[k][i].ts - parts[k][i - 1].ts <= window
    {
      assert longer[k] == parts[k];
    }
  }

  lemma SplitSnocExtend(parts: seq<seq<ClawMessage>>, x: ClawMessage, window: real)
    requires IsSplit(parts, window) && parts != [] && x.ts - Last(Last(parts)).ts <= window
    ensures var longer := parts[..|parts| - 1] + [Last(parts) + [x]];
            && Flatten(longer) == Flatten(parts) + [x]
            && (NoTies(Flatten(longer), window) && Split(Flatten(parts), window) == parts
                ==> Split(Flatten(longer), window) == longer)
  {
    ExtendPart(parts, x, window);
    var xs := Flatten(parts) + [x];
    assert xs[..|xs| - 1] == Flatten(parts);
    assert xs[|xs| - 2] == Last(Last(parts));
    if NoTies(xs, window) {
      assert xs[|xs| - 1].ts - xs[|xs| - 2].ts != window;
    }
  }

  /** With no gap of exactly the window, the machine computes the function Split. */
  lemma DebounceRefinesSplit(evs: seq<Event>, start: real, window: real, id: MsgTag)
    requires window >= 0.0
    requires NoTies(FinalsOf(Run(evs, start, window).received, id), window)
    ensures var s := Run(evs, start, window);
            Parts(s, id) == Split(FinalsOf(s.received, id), window)
  {
    GroupsAreSplit(evs, start, window, id);
    SplitUnique(Parts(Run(evs, start, window), id), window);
  }
}

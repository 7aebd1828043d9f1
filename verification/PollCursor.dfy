/** The long-poll cursor of src/services/telegram.py, against a server that keeps its
    updates in ascending order and offers a prefix of those at or above the offset. */
module PollCursor {
  import opened PyText

  datatype Update = Update(id: int, body: string)

  /** Where in a batch the handler raised, and whether it was cancelled there. */
  datatype Failure = Failure(at: nat, cancelled: bool)

  datatype Outcome =
    | HttpError
    | NotOk
    | Raised
    | Cancelled
    | Batch(limit: nat, failure: Option<Failure>)

  /** One turn of the loop: `_running` at its top, what the request led to, and
      `_running` again when an exception is caught. */
  datatype Turn = Turn(running: bool, outcome: Outcome, stillRunning: bool)

  datatype Loop = Loop(cursor: int, handed: seq<Update>, ended: bool)

  ghost predicate Ascending(u: seq<Update>) {
    forall i, j | 0 <= i < j < |u| :: u[i].id < u[j].id
  }

  /** The updates after lo, up to and including hi, in order. */
  function Between(u: seq<Update>, lo: int, hi: int): seq<Update> {
    if u == [] then []
    else
      var rest := Between(u[..|u| - 1], lo, hi);
      if lo < u[|u| - 1].id <= hi then rest + [u[|u| - 1]] else rest
  }

  /** What the server has at or above the offset. */
  function Offered(u: seq<Update>, offset: int): seq<Update> {
    if u == [] || u[0].id >= offset then u else Offered(u[1..], offset)
  }

  /** One batch: a prefix of that. */
  function GetUpdates(u: seq<Update>, offset: int, limit: nat): seq<Update> {
    var all := Offered(u, offset);
    if limit < |all| then all[..limit] else all
  }

  function Max(a: int, b: int): int { if a < b then b else a }

  /** The cursor passes an update before its handler runs. */
  function Hand(l: Loop, x: Update): Loop {
    Loop(Max(l.cursor, x.id), l.handed + [x], l.ended)
  }

  function HandAll(l: Loop, batch: seq<Update>): Loop {
    if batch == [] then l else Hand(HandAll(l, batch[..|batch| - 1]), batch[|batch| - 1])
  }

  /** The updates whose handlers were called: all, or up to the one that raised. */
  function Reached(batch: seq<Update>, failure: Option<Failure>): seq<Update> {
    if failure.Some? && failure.value.at < |batch| then batch[..failure.value.at + 1] else batch
  }

  function Step(l: Loop, turn: Turn, u: seq<Update>): Loop {
    if l.ended || !turn.running then l.(ended := true)
    else
      match turn.outcome
      case HttpError => l
      case NotOk => l
      case Raised => l.(ended := !turn.stillRunning)
      case Cancelled => l.(ended := true)
      case Batch(limit, failure) =>
        var batch := GetUpdates(u, l.cursor + 1, limit);
        var l' := HandAll(l, Reached(batch, failure));
        if failure.Some? && failure.value.at < |batch|
        then l'.(ended := failure.value.cancelled || !turn.stillRunning)
        else l'
  }

  function Run(turns: seq<Turn>, u: seq<Update>, cursor: int): Loop {
    if turns == [] then Loop(cursor, [], false)
    else Step(Run(turns[..|turns| - 1], u, cursor), turns[|turns| - 1], u)
  }

  lemma {:induction false} BetweenConcat(a: seq<Update>, b: seq<Update>, lo: int, hi: int)
    ensures Between(a + b, lo, hi) == Between(a, lo, hi) + Between(b, lo, hi)
  {
    if b == [] {
      assert a + b == a;
    } else {
      assert (a + b)[..|a + b| - 1] == a + b[..|b| - 1];
      BetweenConcat(a, b[..|b| - 1], lo, hi);
    }
  }

  lemma {:induction false} BetweenNone(u: seq<Update>, lo: int, hi: int)
    requires forall i | 0 <= i < |u| :: !(lo < u[i].id <= hi)
    ensures Between(u, lo, hi) == []
  {
    if u != [] {
      BetweenNone(u[..|u| - 1], lo, hi);
    }
  }

  lemma {:induction false} BetweenAll(u: seq<Update>, lo: int, hi: int)
    requires forall i | 0 <= i < |u| :: lo < u[i].id <= hi
    ensures Between(u, lo, hi) == u
  {
    if u != [] {
      BetweenAll(u[..|u| - 1], lo, hi);
      assert u == u[..|u| - 1] + [u[|u| - 1]];
    }
  }

  lemma {:induction false} BetweenMembers(u: seq<Update>, lo: int, hi: int)
    ensures forall x :: x in Between(u, lo, hi) <==> x in u && lo < x.id <= hi
  {
    if u != [] {
      BetweenMembers(u[..|u| - 1], lo, hi);
      assert u == u[..|u| - 1] + [u[|u| - 1]];
    }
  }

  /** Splitting a window at a point of it. */
  lemma {:induction false} BetweenSplit(u: seq<Update>, lo: int, mid: int, hi: int)
    requires Ascending(u) && lo <= mid <= hi
    ensures Between(u, lo, hi) == Between(u, lo, mid) + Between(u, mid, hi)
  {
    if u != [] {
      var rest, last := u[..|u| - 1], u[|u| - 1];
      BetweenSplit(rest, lo, mid, hi);
      if last.id <= mid {
        BetweenNone(rest, mid, hi);
      }
    }
  }

  lemma {:induction false} OfferedIsSuffix(u: seq<Update>, offset: int) returns (k: nat)
    requires Ascending(u)
    ensures k <= |u| && Offered(u, offset) == u[k..]
    ensures forall i | 0 <= i < |u| :: i < k <==> u[i].id < offset
  {
    if u == [] || u[0].id >= offset {
      k := 0;
    } else {
      k := OfferedIsSuffix(u[1..], offset);
      k := k + 1;
      assert forall i | 1 <= i < |u| :: u[i] == u[1..][i - 1];
    }
  }

  lemma HandedSnoc(handed: seq<Update>, batch: seq<Update>)
    requires batch != []
    ensures handed + batch[..|batch| - 1] + [batch[|batch| - 1]] == handed + batch
  {
  }

  lemma {:induction false} HandAllEffect(l: Loop, batch: seq<Update>)
    requires Ascending(batch) && (batch != [] ==> l.cursor < batch[0].id)
    ensures HandAll(l, batch) == Loop(LastId(batch, l.cursor), l.handed + batch, l.ended)
  {
    if batch == [] {
      assert l.handed + [] == l.handed;
    } else {
      var rest, last := batch[..|batch| - 1], batch[|batch| - 1];
      HandAllEffect(l, rest);
      assert LastId(rest, l.cursor) < last.id;
      HandedSnoc(l.handed, batch);
    }
  }

  lemma WindowOfThree(a: seq<Update>, b: seq<Update>, c: seq<Update>, lo: int, hi: int)
    requires forall i | 0 <= i < |a| :: a[i].id <= lo
    requires forall i | 0 <= i < |b| :: lo < b[i].id <= hi
    requires forall i | 0 <= i < |c| :: hi < c[i].id
    ensures Between(a + (b + c), lo, hi) == b
  {
    BetweenConcat(a, b + c, lo, hi);
    BetweenConcat(b, c, lo, hi);
    BetweenNone(a, lo, hi);
    BetweenAll(b, lo, hi);
    BetweenNone(c, lo, hi);
  }

  function LastId(batch: seq<Update>, cursor: int): int {
    if batch == [] then cursor else batch[|batch| - 1].id
  }

  lemma SliceIsWindow(u: seq<Update>, cursor: int, k: nat, m: nat)
    requires Ascending(u) && k <= m <= |u|
    requires forall i | 0 <= i < |u| :: i < k <==> u[i].id <= cursor
    ensures Ascending(u[k..m]) && (k < m ==> cursor < u[k].id)
    ensures Between(u, cursor, LastId(u[k..m], cursor)) == u[k..m]
  {
    assert u == u[..k] + (u[k..m] + u[m..]);
    WindowOfThree(u[..k], u[k..m], u[m..], cursor, LastId(u[k..m], cursor));
  }

  /** What a batch hands over is exactly the window between the two cursors. */
  lemma PrefixIsWindow(u: seq<Update>, cursor: int, n: nat)
    requires Ascending(u) && n <= |Offered(u, cursor + 1)|
    ensures var batch := Offered(u, cursor + 1)[..n];
            && Ascending(batch)
            && (batch != [] ==> cursor < batch[0].id)
            && Between(u, cursor, LastId(batch, cursor)) == batch
  {
    var k := OfferedIsSuffix(u, cursor + 1);
    assert u[k..][..n] == u[k..k + n];
    SliceIsWindow(u, cursor, k, k + n);
  }

  /** Handed over so far: exactly the updates after the first cursor up to this one. */
  ghost predicate Inv(l: Loop, u: seq<Update>, start: int) {
    start <= l.cursor && l.handed == Between(u, start, l.cursor)
  }

  lemma BatchKeepsInv(l: Loop, u: seq<Update>, start: int, n: nat)
    requires Ascending(u) && Inv(l, u, start) && n <= |Offered(u, l.cursor + 1)|
    ensures var l' := HandAll(l, Offered(u, l.cursor + 1)[..n]);
            Inv(l', u, start) && l.cursor <= l'.cursor
  {
    var batch := Offered(u, l.cursor + 1)[..n];
    PrefixIsWindow(u, l.cursor, n);
    HandAllEffect(l, batch);
    BetweenSplit(u, start, l.cursor, LastId(batch, l.cursor));
  }

  lemma ReachedIsPrefix(u: seq<Update>, offset: int, limit: nat, failure: Option<Failure>) returns (n: nat)
    ensures n <= |Offered(u, offset)| && Reached(GetUpdates(u, offset, limit), failure) == Offered(u, offset)[..n]
  {
    n := |Reached(GetUpdates(u, offset, limit), failure)|;
  }

  lemma StepKeepsInv(l: Loop, turn: Turn, u: seq<Update>, start: int)
    requires Ascending(u) && Inv(l, u, start)
    ensures Inv(Step(l, turn, u), u, start) && l.cursor <= Step(l, turn, u).cursor
  {
    if !l.ended && turn.running && turn.outcome.Batch? {
      var n := ReachedIsPrefix(u, l.cursor + 1, turn.outcome.limit, turn.outcome.failure);
      BatchKeepsInv(l, u, start, n);
    }
  }

  lemma {:induction false} RunKeepsInv(turns: seq<Turn>, u: seq<Update>, start: int)
    requires Ascending(u)
    ensures Inv(Run(turns, u, start), u, start)
  {
    if turns != [] {
      RunKeepsInv(turns[..|turns| - 1], u, start);
      StepKeepsInv(Run(turns[..|turns| - 1], u, start), turns[|turns| - 1], u, start);
    } else {
      BetweenNone(u, start, start);
    }
  }

  /** Across HTTP failures, rejected answers, exceptions between and inside batches, and
      stops: the updates handed to the handler are the offered ones up to the cursor, in
      order and each exactly once, and the cursor never decreases. */
  lemma EachUpdateOnce(turns: seq<Turn>, u: seq<Update>, start: int, n: nat)
    requires Ascending(u) && n <= |turns|
    ensures var l := Run(turns, u, start);
            && l.handed == Between(u, start, l.cursor)
            && (forall x :: x in l.handed <==> x in u && start < x.id <= l.cursor)
            && (forall i, j | 0 <= i < j < |l.handed| :: l.handed[i].id < l.handed[j].id)
            && Run(turns[..n], u, start).cursor <= l.cursor
            && Run(turns[..n], u, start).handed <= l.handed
  {
    RunKeepsInv(turns, u, start);
    var l := Run(turns, u, start);
    BetweenMembers(u, start, l.cursor);
    BetweenAscending(u, start, l.cursor);
    CursorGrows(turns, u, start, n);
    RunKeepsInv(turns[..n], u, start);
    BetweenSplit(u, start, Run(turns[..n], u, start).cursor, l.cursor);
  }

  lemma {:induction false} BetweenAscending(u: seq<Update>, lo: int, hi: int)
    requires Ascending(u)
    ensures Ascending(Between(u, lo, hi))
  {
    if u != [] {
      var rest, last := u[..|u| - 1], u[|u| - 1];
      BetweenAscending(rest, lo, hi);
      BetweenMembers(rest, lo, hi);
      assert forall x | x in Between(rest, lo, hi) :: x in rest && x.id < last.id;
    }
  }

  lemma {:induction false} CursorGrows(turns: seq<Turn>, u: seq<Update>, start: int, n: nat)
    requires Ascending(u) && n <= |turns|
    ensures Run(turns[..n], u, start).cursor <= Run(turns, u, start).cursor
  {
    if n == |turns| {
      assert turns[..n] == turns;
    } else {
      var before := turns[..|turns| - 1];
      assert before[..n] == turns[..n];
      CursorGrows(before, u, start, n);
      RunKeepsInv(before, u, start);
      StepKeepsInv(Run(before, u, start), turns[|turns| - 1], u, start);
    }
  }

  /*** Progress ***/

  /** The server offers exactly its updates at or above the offset, in order, and answers
      with as many of the first ones as the limit allows. */
  lemma ServerAnswers(u: seq<Update>, offset: int, limit: nat)
    requires Ascending(u)
    ensures forall x :: x in Offered(u, offset) <==> x in u && x.id >= offset
    ensures Ascending(Offered(u, offset))
    ensures GetUpdates(u, offset, limit) <= Offered(u, offset)
    ensures |GetUpdates(u, offset, limit)|
         == if limit < |Offered(u, offset)| then limit else |Offered(u, offset)|
  {
    var k := OfferedIsSuffix(u, offset);
    assert u == u[..k] + u[k..];
    forall x | x in u && x.id >= offset
      ensures x in u[k..]
    {
      var i :| 0 <= i < |u| && u[i] == x;
      assert u[k..][i - k] == x;
    }
  }

  /** A handler raises on the update at this position of the answer. */
  predicate RaisesAt(turn: Turn, batch: seq<Update>, at: nat) {
    turn.outcome.Batch? && turn.outcome.failure.Some? && turn.outcome.failure.value.at == at && at < |batch|
  }

  /** A turn gets this answer and no handler raises on it. */
  predicate GoodTurn(l: Loop, turn: Turn, u: seq<Update>) {
    && !l.ended && turn.running && turn.outcome.Batch?
    && (turn.outcome.failure.None?
        || turn.outcome.failure.value.at >= |GetUpdates(u, l.cursor + 1, turn.outcome.limit)|)
  }

  /** Handing over a slice of the server's offer. */
  lemma HandSlice(l: Loop, u: seq<Update>, n: nat)
    requires Ascending(u) && n <= |Offered(u, l.cursor + 1)|
    ensures var batch := Offered(u, l.cursor + 1)[..n];
            HandAll(l, batch) == Loop(if n == 0 then l.cursor else batch[n - 1].id, l.handed + batch, l.ended)
  {
    PrefixIsWindow(u, l.cursor, n);
    HandAllEffect(l, Offered(u, l.cursor + 1)[..n]);
  }

  /** A turn whose handlers do not raise hands over the whole of the server's answer, in
      order, and leaves the cursor at its last id; the loop goes on. */
  lemma GoodTurnHandsAll(l: Loop, turn: Turn, u: seq<Update>)
    requires Ascending(u) && GoodTurn(l, turn, u)
    ensures var batch := GetUpdates(u, l.cursor + 1, turn.outcome.limit);
            && Step(l, turn, u).handed == l.handed + batch
            && Step(l, turn, u).cursor == (if batch == [] then l.cursor else batch[|batch| - 1].id)
            && !Step(l, turn, u).ended
  {
    var batch := GetUpdates(u, l.cursor + 1, turn.outcome.limit);
    assert batch == Offered(u, l.cursor + 1)[..|batch|];
    HandSlice(l, u, |batch|);
  }

  /** A handler that raises at position i is the last one called: the first i + 1 updates
      are handed over, and the loop ends only when cancelled or stopped. */
  lemma RaisingTurnHandsPrefix(l: Loop, turn: Turn, u: seq<Update>, at: nat)
    requires Ascending(u) && !l.ended && turn.running && turn.outcome.Batch?
    requires RaisesAt(turn, GetUpdates(u, l.cursor + 1, turn.outcome.limit), at)
    ensures var batch := GetUpdates(u, l.cursor + 1, turn.outcome.limit);
            && Step(l, turn, u).handed == l.handed + batch[..at + 1]
            && Step(l, turn, u).cursor == batch[at].id
            && (Step(l, turn, u).ended <==> turn.outcome.failure.value.cancelled || !turn.stillRunning)
  {
    var batch := GetUpdates(u, l.cursor + 1, turn.outcome.limit);
    assert batch[..at + 1] == Offered(u, l.cursor + 1)[..at + 1];
    HandSlice(l, u, at + 1);
  }

  /** Other turns hand over nothing; a failed request ends the loop only when cancelled or
      when it was stopped meanwhile. */
  lemma OtherTurnsHandNothing(l: Loop, turn: Turn, u: seq<Update>)
    requires l.ended || !turn.running || !turn.outcome.Batch?
    ensures Step(l, turn, u).handed == l.handed && Step(l, turn, u).cursor == l.cursor
    ensures Step(l, turn, u).ended <==>
              l.ended || !turn.running || turn.outcome.Cancelled? || (turn.outcome.Raised? && !turn.stillRunning)
  {
  }

  lemma HandedStays(turns: seq<Turn>, u: seq<Update>, start: int, n: nat, x: Update)
    requires Ascending(u) && n <= |turns| && x in Run(turns[..n], u, start).handed
    ensures x in Run(turns, u, start).handed && x.id <= Run(turns, u, start).cursor
  {
    EachUpdateOnce(turns, u, start, n);
    var before, after := Run(turns[..n], u, start).handed, Run(turns, u, start).handed;
    var i :| 0 <= i < |before| && before[i] == x;
    assert after[i] == x;
  }

  lemma RunTurn(turns: seq<Turn>, u: seq<Update>, start: int, n: nat)
    requires n < |turns|
    ensures Run(turns[..n + 1], u, start) == Step(Run(turns[..n], u, start), turns[n], u)
  {
    assert turns[..n + 1][..n] == turns[..n];
  }

  /** Over a run: whatever the server offered in a good turn is handed over by the end of
      that turn, for good, and lies at or below the cursor ever after. */
  lemma OfferedIsHanded(turns: seq<Turn>, u: seq<Update>, start: int, n: nat, x: Update)
    requires Ascending(u) && n < |turns|
    requires var l := Run(turns[..n], u, start);
             GoodTurn(l, turns[n], u) && x in GetUpdates(u, l.cursor + 1, turns[n].outcome.limit)
    ensures x in Run(turns, u, start).handed && x.id <= Run(turns, u, start).cursor
  {
    GoodTurnHandsAll(Run(turns[..n], u, start), turns[n], u);
    RunTurn(turns, u, start, n);
    HandedStays(turns, u, start, n + 1, x);
  }

  lemma RoomForAll(u: seq<Update>, offset: int, limit: nat, x: Update)
    requires Ascending(u) && limit >= |u| && x in u && x.id >= offset
    ensures x in GetUpdates(u, offset, limit)
  {
    ServerAnswers(u, offset, limit);
    OfferedFits(u, offset);
  }

  /** One good turn with room for all of them leaves no update of the server behind. */
  lemma GoodTurnCatchesUp(turns: seq<Turn>, u: seq<Update>, start: int, n: nat, x: Update)
    requires Ascending(u) && n < |turns| && x in u && x.id > start
    requires GoodTurn(Run(turns[..n], u, start), turns[n], u) && turns[n].outcome.limit >= |u|
    ensures x in Run(turns, u, start).handed
  {
    var l := Run(turns[..n], u, start);
    if x.id > l.cursor {
      RoomForAll(u, l.cursor + 1, turns[n].outcome.limit, x);
      OfferedIsHanded(turns, u, start, n, x);
    } else {
      EachUpdateOnce(turns[..n], u, start, n);
      HandedStays(turns, u, start, n, x);
    }
  }

  lemma OfferedFits(u: seq<Update>, offset: int)
    requires Ascending(u)
    ensures |Offered(u, offset)| <= |u|
  {
    var k := OfferedIsSuffix(u, offset);
  }

  /*** The adapter ***/

  class TelegramAdapter {
    var lastUpdateId: int
    var handed: seq<Update>

    constructor ()
      ensures lastUpdateId == 0 && handed == []
    {
      lastUpdateId, handed := 0, [];
    }

    method HandleUpdate(x: Update)
      modifies this`handed
      ensures handed == old(handed) + [x]
    {
      handed := handed + [x];
    }

    /** The inner loop: false when a handler raised. */
    method HandleBatch(batch: seq<Update>, failure: Option<Failure>) returns (ok: bool)
      modifies this
      ensures Loop(lastUpdateId, handed, false)
           == HandAll(Loop(old(lastUpdateId), old(handed), false), Reached(batch, failure))
      ensures ok <==> failure.None? || failure.value.at >= |batch|
    {
      ghost var l := Loop(lastUpdateId, handed, false);
      for i := 0 to |batch|
        invariant failure.Some? ==> i <= failure.value.at
        invariant Loop(lastUpdateId, handed, false) == HandAll(l, batch[..i])
      {
        lastUpdateId := Max(lastUpdateId, batch[i].id);
        HandleUpdate(batch[i]);
        assert batch[..i + 1][..i] == batch[..i];
        if failure.Some? && failure.value.at == i {
          return false;
        }
      }
      assert batch[..|batch|] == batch;
      ok := true;
    }

    /** The polling loop over whatever its turns bring. */
    method PollLoop(turns: seq<Turn>, u: seq<Update>)
      requires handed == []
      modifies this
      ensures lastUpdateId == Run(turns, u, old(lastUpdateId)).cursor
      ensures handed == Run(turns, u, old(lastUpdateId)).handed
    {
      var n, ended := 0, false;
      ghost var start := lastUpdateId;
      while n < |turns| && !ended
        invariant n <= |turns|
        invariant Loop(lastUpdateId, handed, ended) == Run(turns[..n], u, start)
      {
        var turn := turns[n];
        n := n + 1;
        assert turns[..n][..n - 1] == turns[..n - 1];
        if !turn.running {
          ended := true;
        } else {
          match turn.outcome {
            case HttpError =>
            case NotOk =>
            case Raised => ended := !turn.stillRunning;
            case Cancelled => ended := true;
            case Batch(limit, failure) =>
              var ok := HandleBatch(GetUpdates(u, lastUpdateId + 1, limit), failure);
              if !ok {
                ended := failure.value.cancelled || !turn.stillRunning;
              }
          }
        }
      }
      EndedStays(turns, u, start, n);
    }
  }

  lemma {:induction false} EndedStays(turns: seq<Turn>, u: seq<Update>, start: int, n: nat)
    requires n <= |turns| && (n < |turns| ==> Run(turns[..n], u, start).ended)
    ensures Run(turns, u, start) == Run(turns[..n], u, start)
  {
    if n == |turns| {
      assert turns[..n] == turns;
    } else {
      var before := turns[..|turns| - 1];
      assert before[..n] == turns[..n];
      if n < |before| {
        EndedStays(before, u, start, n);
      } else {
        assert before == turns[..n];
      }
    }
  }
}

/**
 The stored conversation of chat sessions: how a turn's messages are stamped and
 saved, and what the stamps say about the order of turns when turns of the same
 or other sessions run at the same time.
 */
module ChatLedger {
  import opened Wrappers
  import opened ChatTurn

  /** A saved message. `turn` and `savedAt` (a position in the run) are the model's own. */
  datatype Record = Record(session: string, stamp: int, message: Message, turn: nat, savedAt: nat)

  /** Records are keyed by message id; saving an id again replaces the record. */
  type Records = map<string, Record>

  function Max(a: int, b: int): int {
    if a >= b then a else b
  }

  /** The stamp of the turn's message number `index`: its own time, if that is late enough. */
  function Stamp(base: int, index: nat, message: Message): int {
    Max(message.timestamp, base + 1 + index)
  }

  function SaveOne(records: Records, session: string, base: int, turn: nat, at: nat, index: nat, message: Message): Records {
    records[message.id := Record(session, Stamp(base, index, message), message, turn, at)]
  }

  // -------------------------------------------------- turns running side by side

  /** A turn that has read the history: the base it will stamp from. */
  datatype Open = Open(session: string, base: int, begunAt: nat)

  datatype State = State(records: Records, turns: map<nat, Open>, clock: nat)

  datatype Step =
    | Begin(turn: nat, session: string, now: int)
    | Save(turn: nat, index: nat, message: Message)
    | Pass

  predicate InSession(r: Record, session: string) {
    r.session == session
  }

  /** `max` over the session's stamps (0 without any) and the clock. */
  predicate IsBase(records: Records, session: string, now: int, base: int) {
    && base >= now
    && (forall id :: id in records && InSession(records[id], session) ==> base >= records[id].stamp)
    && (base == now
        || (exists id :: id in records && InSession(records[id], session) && base == records[id].stamp)
        || (base == 0 && forall id :: id in records ==> !InSession(records[id], session)))
  }

  /**
   One step of one turn: it reads the history, or saves its next message. A failed
   save, a failed turn and an interrupted turn are steps that change nothing.
   */
  ghost predicate Next(s: State, step: Step, s': State) {
    s'.clock == s.clock + 1 &&
    match step
    case Begin(turn, session, now) =>
      && turn !in s.turns && s'.records == s.records
      && exists base :: IsBase(s.records, session, now, base) && s'.turns == s.turns[turn := Open(session, base, s.clock)]
    case Save(turn, index, message) =>
      && turn in s.turns && s'.turns == s.turns
      && s'.records == SaveOne(s.records, s.turns[turn].session, s.turns[turn].base, turn, s.clock, index, message)
    case Pass =>
      s'.records == s.records && s'.turns == s.turns
  }

  ghost predicate Run(states: seq<State>, steps: seq<Step>) {
    && |states| == |steps| + 1
    && states[0] == State(map[], map[], 0)
    && forall i :: 0 <= i < |steps| ==> Next(states[i], steps[i], states[i + 1])
  }

  /** A record was saved by its turn, above that turn's base. */
  ghost predicate Placed(s: State, r: Record) {
    && r.turn in s.turns && r.session == s.turns[r.turn].session
    && s.turns[r.turn].base < r.stamp
    && s.turns[r.turn].begunAt < r.savedAt < s.clock
  }

  ghost predicate Ordered(s: State) {
    && (forall id :: id in s.records ==> Placed(s, s.records[id]))
    && (forall t :: t in s.turns ==> s.turns[t].begunAt < s.clock)
    && forall t, id :: t in s.turns && id in s.records && SavedBefore(s.records[id], s.turns[t]) ==>
         s.records[id].stamp <= s.turns[t].base
  }

  predicate SavedBefore(r: Record, o: Open) {
    r.session == o.session && r.savedAt < o.begunAt
  }

  lemma StepOrdered(s: State, step: Step, s': State)
    requires Ordered(s) && Next(s, step, s')
    ensures Ordered(s')
  {
    match step
    case Begin(turn, session, now) =>
      forall id | id in s'.records ensures Placed(s', s'.records[id]) {
        assert Placed(s, s.records[id]);
      }
    case Save(turn, index, message) =>
      forall id | id in s'.records ensures Placed(s', s'.records[id]) {
        assert id != message.id ==> Placed(s, s.records[id]);
      }
    case Pass =>
      forall id | id in s'.records ensures Placed(s', s'.records[id]) {
        assert Placed(s, s.records[id]);
      }
  }

  lemma {:induction false} RunOrdered(states: seq<State>, steps: seq<Step>, n: nat)
    requires Run(states, steps) && n < |states|
    ensures Ordered(states[n])
  {
    if n > 0 {
      RunOrdered(states, steps, n - 1);
      StepOrdered(states[n - 1], steps[n - 1], states[n]);
    }
  }

  /**
   For every interleaving: what was saved before a turn began is stamped strictly
   before everything that turn saves in the same session.
   */
  lemma LaterTurnStampsLater(states: seq<State>, steps: seq<Step>, n: nat, earlier: string, later: string)
    requires Run(states, steps) && n < |states|
    requires earlier in states[n].records && later in states[n].records
    requires states[n].records[earlier].session == states[n].records[later].session
    ensures var s := states[n];
      Placed(s, s.records[later]) &&
      (s.records[earlier].savedAt < s.turns[s.records[later].turn].begunAt ==> s.records[earlier].stamp < s.records[later].stamp)
  {
    RunOrdered(states, steps, n);
  }

  /** Turns that do not overlap are never mixed by a replay in stamp order. */
  lemma ReplayKeepsTurnsApart(states: seq<State>, steps: seq<Step>, n: nat, replay: seq<Record>, i: nat, j: nat)
    requires Run(states, steps) && n < |states|
    requires forall r :: r in replay ==> r in states[n].records.Values
    requires forall k, l :: 0 <= k < l < |replay| ==> replay[k].session == replay[l].session && replay[k].stamp <= replay[l].stamp
    requires i < |replay| && j < |replay|
    requires replay[i].turn in states[n].turns && replay[j].turn in states[n].turns
    requires replay[i].savedAt < states[n].turns[replay[j].turn].begunAt
    ensures i < j
  {
    var s := states[n];
    RunOrdered(states, steps, n);
    assert replay[i] in replay && replay[j] in replay;
    var a :| a in s.records && s.records[a] == replay[i];
    var b :| b in s.records && s.records[b] == replay[j];
    assert Placed(s, s.records[a]) && Placed(s, s.records[b]);
  }

  /** Two turns that both began on an empty session can be stamped in either order. */
  lemma OverlapMixesTurns(a: Message, b: Message)
    requires a.id != b.id && a.timestamp <= 1 && b.timestamp <= 1
    ensures exists states, steps :: Run(states, steps) && |states| == 5 && Tied(states[4], a.id, b.id)
  {
    var open0, open1 := Open("chat", 0, 0), Open("chat", 0, 1);
    var s0 := State(map[], map[], 0);
    var s1 := State(map[], map[0 := open0], 1);
    var s2 := State(map[], map[0 := open0][1 := open1], 2);
    var s3 := State(SaveOne(map[], "chat", 0, 0, 2, 0, a), s2.turns, 3);
    var s4 := State(SaveOne(s3.records, "chat", 0, 1, 3, 0, b), s2.turns, 4);
    var states := [s0, s1, s2, s3, s4];
    var steps := [Begin(0, "chat", 0), Begin(1, "chat", 0), Save(0, 0, a), Save(1, 0, b)];
    assert IsBase(map[], "chat", 0, 0);
    assert Next(s0, steps[0], s1) && Next(s1, steps[1], s2) && Next(s2, steps[2], s3) && Next(s3, steps[3], s4);
    assert Run(states, steps);
  }

  /**
   The converse, for any state: of what two turns of a session save once both have
   begun, the messages' own times decide, if they are late enough, and not which turn
   began, or saved, first.
   */
  lemma OverlapOrderedByMessages(s: State, first: nat, second: nat, i: nat, j: nat, a: Message, b: Message)
    requires first in s.turns && second in s.turns && s.turns[first].session == s.turns[second].session
    requires a.id != b.id
    requires a.timestamp > Max(s.turns[first].base + i, s.turns[second].base + j)
    requires b.timestamp > Max(s.turns[first].base + i, s.turns[second].base + j)
    ensures var o, p := s.turns[first], s.turns[second];
      var after := SaveOne(SaveOne(s.records, o.session, o.base, first, s.clock, i, a), p.session, p.base, second, s.clock + 1, j, b);
      && Next(s, Save(first, i, a), State(SaveOne(s.records, o.session, o.base, first, s.clock, i, a), s.turns, s.clock + 1))
      && Next(State(SaveOne(s.records, o.session, o.base, first, s.clock, i, a), s.turns, s.clock + 1), Save(second, j, b), State(after, s.turns, s.clock + 2))
      && (after[a.id].stamp < after[b.id].stamp <==> a.timestamp < b.timestamp)
  {
  }

  /** Two records of different turns of one session with the same stamp. */
  predicate Tied(s: State, a: string, b: string) {
    && a in s.records && b in s.records && s.records[a].session == s.records[b].session
    && s.records[a].turn != s.records[b].turn && s.records[a].stamp == s.records[b].stamp
  }

  // ------------------------------------------------------------- inside a turn

  /**
   Inside a turn two messages keep their order strictly exactly when the earlier
   one's own time is before the later one's stamp; order by time is never reversed.
   */
  lemma InTurnOrder(base: int, i: nat, j: nat, earlier: Message, later: Message)
    requires i < j
    ensures Stamp(base, i, earlier) < Stamp(base, j, later) <==> earlier.timestamp < Stamp(base, j, later)
    ensures earlier.timestamp <= later.timestamp ==> Stamp(base, i, earlier) <= Stamp(base, j, later)
    ensures later.timestamp < earlier.timestamp && earlier.timestamp > base + 1 + j ==> Stamp(base, i, earlier) > Stamp(base, j, later)
  {
  }

  // ------------------------------------------------------------- the program

  datatype Status = Completed | Failed(error: string) | Cancelled(reason: string)

  datatype Execution = Execution(status: Status, profile: string, startedAt: int, completedAt: int)

  function StatusOf(outcome: Outcome): Status {
    match outcome
    case TurnCompleted(_) => Status.Completed
    case TurnFailed(error) => Status.Failed(error)
    case TurnInterrupted(reason) => Cancelled(reason)
  }

  /** The messages a completed turn added: everything after the restored history. */
  function Tail(history: seq<Message>, injected: nat): seq<Message> {
    history[if |history| >= 2 + injected then |history| - (2 + injected) else 0..]
  }

  /** Mentions, receipt, user text and reply are the tail; the restored history is not. */
  lemma TailIsTurn(restored: seq<Message>, injected: seq<Message>, user: Message, reply: Message)
    ensures Tail(restored + injected + [user, reply], |injected|) == injected + [user, reply]
  {
    assert restored + injected + [user, reply] == restored + (injected + [user, reply]);
  }

  /** The saves that went through, one flag per message. */
  function SaveSome(records: Records, session: string, base: int, turn: nat, at: nat, messages: seq<Message>, saved: seq<bool>): Records
    requires |saved| <= |messages|
    decreases |saved|
  {
    if saved == [] then records
    else
      var last := |saved| - 1;
      var before := SaveSome(records, session, base, turn, at, messages, saved[..last]);
      if saved[last] then SaveOne(before, session, base, turn, at + last, last, messages[last]) else before
  }

  /** The record holds the message as it was handed over, stamped with its own time or past the base, whichever is later. */
  predicate HoldsMessage(r: Record, session: string, base: int, index: nat, message: Message) {
    && r.session == session && r.message == message
    && r.stamp == if message.timestamp > base + index then message.timestamp else base + index + 1
  }

  /** The save went through, and no later one replaced the record. */
  ghost predicate LastSave(messages: seq<Message>, saved: seq<bool>, k: nat)
    requires |saved| <= |messages|
  {
    k < |saved| && saved[k] && forall l :: k < l < |saved| && saved[l] ==> messages[l].id != messages[k].id
  }

  ghost predicate SavedId(messages: seq<Message>, saved: seq<bool>, id: string)
    requires |saved| <= |messages|
  {
    exists k :: 0 <= k < |saved| && saved[k] && messages[k].id == id
  }

  /** What the saves leave: every message under its id, and every other record as it was. */
  ghost predicate AllStored(before: Records, after: Records, session: string, base: int, messages: seq<Message>, saved: seq<bool>)
    requires |saved| <= |messages|
  {
    && (forall k: nat :: LastSave(messages, saved, k) ==> messages[k].id in after && HoldsMessage(after[messages[k].id], session, base, k, messages[k]))
    && (forall id :: id in after <==> id in before || SavedId(messages, saved, id))
    && (forall id :: id in before && !SavedId(messages, saved, id) ==> after[id] == before[id])
  }

  lemma SavedIdStep(messages: seq<Message>, rest: seq<bool>, flag: bool, id: string)
    requires |rest| < |messages|
    ensures SavedId(messages, rest + [flag], id) <==> SavedId(messages, rest, id) || (flag && messages[|rest|].id == id)
  {
    var saved := rest + [flag];
    if SavedId(messages, rest, id) {
      var k :| 0 <= k < |rest| && rest[k] && messages[k].id == id;
      assert saved[k];
    }
    if flag && messages[|rest|].id == id {
      assert saved[|rest|];
    }
  }

  lemma LastSaveStep(messages: seq<Message>, rest: seq<bool>, flag: bool, k: nat)
    requires |rest| < |messages| && LastSave(messages, rest + [flag], k) && k != |rest|
    ensures LastSave(messages, rest, k) && (flag ==> messages[|rest|].id != messages[k].id)
  {
    assert (rest + [flag])[|rest|] == flag;
    assert forall l :: 0 <= l < |rest| ==> rest[l] == (rest + [flag])[l];
  }

  lemma StoreStep(before: Records, after: Records, session: string, base: int, messages: seq<Message>, rest: seq<bool>, flag: bool, r: Record)
    requires |rest| < |messages| && AllStored(before, after, session, base, messages, rest)
    requires HoldsMessage(r, session, base, |rest|, messages[|rest|])
    ensures AllStored(before, if flag then after[messages[|rest|].id := r] else after, session, base, messages, rest + [flag])
  {
    var saved := rest + [flag];
    var last := messages[|rest|].id;
    forall k: nat | LastSave(messages, saved, k)
      ensures (k == |rest| && flag) || (LastSave(messages, rest, k) && (flag ==> messages[k].id != last))
    {
      if k != |rest| {
        LastSaveStep(messages, rest, flag, k);
      }
    }
    forall id ensures SavedId(messages, saved, id) <==> SavedId(messages, rest, id) || (flag && last == id) {
      SavedIdStep(messages, rest, flag, id);
    }
    hide SavedId, HoldsMessage;
  }

  lemma NothingStored(records: Records, session: string, base: int, messages: seq<Message>)
    ensures AllStored(records, records, session, base, messages, [])
  {
  }

  lemma {:induction false} SavesStore(records: Records, session: string, base: int, turn: nat, at: nat, messages: seq<Message>, saved: seq<bool>)
    requires |saved| <= |messages|
    ensures AllStored(records, SaveSome(records, session, base, turn, at, messages, saved), session, base, messages, saved)
    decreases |saved|
  {
    hide AllStored;
    if saved == [] {
      NothingStored(records, session, base, messages);
    } else {
      var last := |saved| - 1;
      SavesStore(records, session, base, turn, at, messages, saved[..last]);
      assert saved == saved[..last] + [saved[last]];
      StoreStep(records, SaveSome(records, session, base, turn, at, messages, saved[..last]), session, base, messages, saved[..last], saved[last],
                Record(session, Stamp(base, last, messages[last]), messages[last], turn, at + last));
    }
  }

  ghost predicate DistinctIds(messages: seq<Message>) {
    forall i, j :: 0 <= i < j < |messages| ==> messages[i].id != messages[j].id
  }

  /** Messages with ids of their own, all saved, are all there. */
  lemma StoredEach(before: Records, after: Records, session: string, base: int, messages: seq<Message>, saved: seq<bool>)
    requires |saved| == |messages| && forall i :: 0 <= i < |saved| ==> saved[i]
    requires DistinctIds(messages) && AllStored(before, after, session, base, messages, saved)
    ensures forall k: nat :: k < |messages| ==> messages[k].id in after && HoldsMessage(after[messages[k].id], session, base, k, messages[k])
  {
    hide HoldsMessage;
    assert forall k: nat :: k < |messages| ==> LastSave(messages, saved, k);
  }

  /** The session's record says how the turn ended. */
  predicate Says(e: Execution, outcome: Outcome) {
    && (outcome.TurnCompleted? ==> e.status == Status.Completed)
    && (outcome.TurnFailed? ==> e.status == Status.Failed(outcome.error))
    && (outcome.TurnInterrupted? ==> e.status == Cancelled(outcome.reason))
  }

  class Storage {
    var records: Records
    var executions: map<string, Execution>

    constructor ()
      ensures records == map[] && executions == map[]
    {
      records, executions := map[], map[];
    }

    /** `persist_messages`; a save that fails is passed over. */
    method PersistMessages(session: string, history: seq<Message>, base: int, injected: nat, turn: nat, at: nat, reliable: bool)
      returns (ghost saved: seq<bool>)
      modifies this`records
      ensures |saved| == |Tail(history, injected)|
      ensures records == SaveSome(old(records), session, base, turn, at, Tail(history, injected), saved)
      ensures AllStored(old(records), records, session, base, Tail(history, injected), saved)
      ensures reliable ==> forall i :: 0 <= i < |saved| ==> saved[i]
    {
      hide AllStored;
      var messages := Tail(history, injected);
      saved := [];
      for index := 0 to |messages|
        invariant |saved| == index
        invariant reliable ==> forall i :: 0 <= i < |saved| ==> saved[i]
        invariant records == SaveSome(old(records), session, base, turn, at, messages, saved)
      {
        var stamp := base + 1 + index;
        var message := messages[index];
        var fails := *;
        fails := fails && !reliable;
        ghost var before := saved;
        if !fails {
          records := records[message.id := Record(session, Max(message.timestamp, stamp), message, turn, at + index)];
        }
        saved := saved + [!fails];
        assert saved[..|saved| - 1] == before;
      }
      SavesStore(old(records), session, base, turn, at, messages, saved);
    }

    /** `finish_turn`: the session's record keeps the start time of its first turn. */
    method FinishTurn(session: string, profile: string, startedAt: int, now: int, outcome: Outcome, reliable: bool)
      modifies this`executions
      ensures executions == old(executions) ||
        exists start :: executions == old(executions)[session := Execution(StatusOf(outcome), profile, start, now)]
      ensures forall s :: s != session ==> (s in executions <==> s in old(executions)) && (s in executions ==> executions[s] == old(executions)[s])
      ensures reliable ==> session in executions && Says(executions[session], outcome)
      ensures reliable ==> executions[session] == Execution(StatusOf(outcome), profile, if session in old(executions) then old(executions)[session].startedAt else startedAt, now)
    {
      var loaded, saves := *, *;
      var start := if (reliable || loaded) && session in executions then executions[session].startedAt else startedAt;
      if reliable || saves {
        executions := executions[session := Execution(StatusOf(outcome), profile, start, now)];
      }
    }

    /** The driver's end: the session record always, the messages only of a completed turn. */
    method CloseTurn(session: string, profile: string, startedAt: int, now: int, outcome: Outcome,
                     history: seq<Message>, base: int, injected: nat, turn: nat, at: nat, reliable: bool)
      modifies this
      ensures !outcome.TurnCompleted? ==> records == old(records)
      ensures outcome.TurnCompleted? ==>
        exists saved :: |saved| == |Tail(history, injected)| &&
          records == SaveSome(old(records), session, base, turn, at, Tail(history, injected), saved)
      ensures reliable && session in old(executions) ==>
        session in executions && executions[session].startedAt == old(executions)[session].startedAt
      // Where saving works: the record says how the turn ended, and a completed turn's messages are all there.
      ensures reliable ==>
        session in executions && Says(executions[session], outcome) && executions[session].profile == profile && executions[session].completedAt == now
      ensures reliable && outcome.TurnCompleted? ==>
        exists saved :: |saved| == |Tail(history, injected)| && (forall i :: 0 <= i < |saved| ==> saved[i])
          && AllStored(old(records), records, session, base, Tail(history, injected), saved)
      ensures reliable && outcome.TurnCompleted? && DistinctIds(Tail(history, injected)) ==>
        forall k: nat :: k < |Tail(history, injected)| ==>
          && Tail(history, injected)[k].id in records
          && HoldsMessage(records[Tail(history, injected)[k].id], session, base, k, Tail(history, injected)[k])
    {
      hide AllStored, SaveSome, Tail;
      FinishTurn(session, profile, startedAt, now, outcome, reliable);
      if outcome.TurnCompleted? {
        ghost var saved := PersistMessages(session, history, base, injected, turn, at, reliable);
        if reliable && DistinctIds(Tail(history, injected)) {
          StoredEach(old(records), records, session, base, Tail(history, injected), saved);
        }
      }
    }

    /** The base of a turn: the last stored stamp, or the clock when that is later. */
    static method LedgerBase(stamps: seq<int>, now: int) returns (base: int)
      ensures base >= now
      ensures forall i :: 0 <= i < |stamps| ==> base >= stamps[i]
      ensures base == now || base in stamps || (base == 0 && stamps == [])
    {
      var last: Option<int> := None;
      for i := 0 to |stamps|
        invariant last.None? <==> i == 0
        invariant last.Some? ==> last.value in stamps && forall k :: 0 <= k < i ==> stamps[k] <= last.value
      {
        if last.None? || last.value < stamps[i] {
          last := Some(stamps[i]);
        }
      }
      base := Max(if last.Some? then last.value else 0, now);
    }
  }

  /** The ledger after the first `k` messages of the saving loop. */
  function Saving(records: Records, turns: map<nat, Open>, turn: nat, at: nat, messages: seq<Message>, saved: seq<bool>, k: nat): State
    requires turn in turns && k <= |saved| <= |messages|
  {
    State(SaveSome(records, turns[turn].session, turns[turn].base, turn, at, messages, saved[..k]), turns, at + k)
  }

  lemma SavingNext(records: Records, turns: map<nat, Open>, turn: nat, at: nat, messages: seq<Message>, saved: seq<bool>, k: nat)
    requires turn in turns && k < |saved| <= |messages|
    ensures Next(Saving(records, turns, turn, at, messages, saved, k), if saved[k] then Save(turn, k, messages[k]) else Pass,
                 Saving(records, turns, turn, at, messages, saved, k + 1))
  {
    hide SaveOne;
    assert saved[..k + 1][..k] == saved[..k];
  }

  lemma SavingEnds(records: Records, turns: map<nat, Open>, turn: nat, at: nat, messages: seq<Message>, saved: seq<bool>)
    requires turn in turns && |saved| <= |messages|
    ensures Saving(records, turns, turn, at, messages, saved, 0) == State(records, turns, at)
    ensures Saving(records, turns, turn, at, messages, saved, |saved|).records ==
            SaveSome(records, turns[turn].session, turns[turn].base, turn, at, messages, saved)
  {
    assert saved[..0] == [] && saved[..|saved|] == saved;
  }

  /** The saving loop is a run of the ledger: it starts from the stored records, takes one step a message, and ends where the loop does. */
  lemma PersistIsSaves(records: Records, turns: map<nat, Open>, turn: nat, at: nat, messages: seq<Message>, saved: seq<bool>)
    requires turn in turns && |saved| <= |messages|
    ensures Saving(records, turns, turn, at, messages, saved, 0) == State(records, turns, at)
    ensures forall k :: 0 <= k < |saved| ==>
      Next(Saving(records, turns, turn, at, messages, saved, k), if saved[k] then Save(turn, k, messages[k]) else Pass,
           Saving(records, turns, turn, at, messages, saved, k + 1))
    ensures Saving(records, turns, turn, at, messages, saved, |saved|).records ==
            SaveSome(records, turns[turn].session, turns[turn].base, turn, at, messages, saved)
  {
    hide Saving, Next;
    SavingEnds(records, turns, turn, at, messages, saved);
    forall k | 0 <= k < |saved|
      ensures Next(Saving(records, turns, turn, at, messages, saved, k), if saved[k] then Save(turn, k, messages[k]) else Pass,
                   Saving(records, turns, turn, at, messages, saved, k + 1))
    {
      SavingNext(records, turns, turn, at, messages, saved, k);
    }
  }
}

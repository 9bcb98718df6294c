/**
 One streamed chat turn: provider events in, frames out over a bounded channel
 whose consumer may lag or leave, and the outcome of the turn.
 */
module ChatTurn {
  import opened Wrappers

  datatype Message = Message(id: string, timestamp: int, text: string)

  /** Token counts count up from zero; the optional ones may be missing. Costs in exact units. */
  datatype Usage = Usage(
    prompt: nat, completion: nat, total: nat,
    reasoning: Option<nat>, cacheRead: Option<nat>, cacheWrite: Option<nat>,
    promptCost: Option<real>, completionCost: Option<real>, totalCost: Option<real>)

  datatype Event =
    | Text(text: string)
    | Chunk(content: string)
    | Reasoning(reasoning: string)
    | Reply(message: Message)
    | FinalReply(message: Message, reported: Option<Usage>)
    | UsageReport(usage: Usage)
    | Error(error: string)
    | Refusal(snapshot: string)
    | Abort(reason: string)
    | StreamError(error: string)
    | Other

  datatype Frame =
    | LlmDelta(content: string)
    | ReasoningDelta(content: string)
    | UsageFrame(prompt: nat, completion: nat, cost: Option<real>, reasoning: Option<nat>, cacheRead: Option<nat>, cacheWrite: Option<nat>, total: Option<nat>)
    | Completed(answer: string)
    | Failed(error: string)
    | Interrupted(reason: string)

  datatype Outcome = TurnCompleted(answer: string) | TurnFailed(error: string) | TurnInterrupted(reason: string)

  const DISCONNECTED := "chat consumer disconnected"
  const NO_FINAL_MESSAGE := "chat stream ended without a final message"

  predicate Terminal(f: Frame) {
    f.Completed? || f.Failed? || f.Interrupted?
  }

  // ------------------------------------------------------------------- usage

  function Or<T>(later: Option<T>, earlier: Option<T>): Option<T> {
    if later.Some? then later else earlier
  }

  function Merge(total: Option<Usage>, reported: Usage): Usage {
    match total
    case None => reported
    case Some(current) => Usage(
      if reported.prompt > 0 then reported.prompt else current.prompt,
      if reported.completion > 0 then reported.completion else current.completion,
      if reported.total > 0 then reported.total else current.total,
      Or(reported.reasoning, current.reasoning),
      Or(reported.cacheRead, current.cacheRead),
      Or(reported.cacheWrite, current.cacheWrite),
      Or(reported.promptCost, current.promptCost),
      Or(reported.completionCost, current.completionCost),
      Or(reported.totalCost, current.totalCost))
  }

  function MergeAll(total: Option<Usage>, reports: seq<Usage>): Option<Usage>
    decreases |reports|
  {
    if reports == [] then total else MergeAll(Some(Merge(total, reports[0])), reports[1..])
  }

  // ------------------------------------------------------------- the turn's state

  datatype Turn = Turn(answer: string, usage: Option<Usage>, assistant: Option<Message>, refusal: Option<string>)

  const EMPTY_TURN := Turn("", None, None, None)

  function Apply(t: Turn, e: Event): Turn {
    match e
    case Text(text) => t.(answer := t.answer + text)
    case Chunk(content) => t.(answer := t.answer + content)
    case Reply(message) => t.(assistant := Some(message))
    case FinalReply(message, usage) =>
      t.(assistant := Some(message), usage := if usage.Some? then Some(Merge(t.usage, usage.value)) else t.usage)
    case UsageReport(usage) => t.(usage := Some(Merge(t.usage, usage)))
    case Refusal(snapshot) => t.(refusal := Some(snapshot))
    case _ => t
  }

  function ApplyAll(t: Turn, events: seq<Event>): Turn
    decreases |events|
  {
    if events == [] then t else ApplyAll(Apply(t, events[0]), events[1..])
  }

  /** What a consumer sees of a report: a total only above zero, the total cost only. */
  function UsageSeen(u: Usage): Frame {
    UsageFrame(u.prompt, u.completion, u.totalCost, u.reasoning, u.cacheRead, u.cacheWrite, if u.total > 0 then Some(u.total) else None)
  }

  /** The frame an event offers to the consumer. */
  function FrameOf(e: Event): seq<Frame> {
    match e
    case Text(text) => [LlmDelta(text)]
    case Chunk(content) => [LlmDelta(content)]
    case Reasoning(reasoning) => [ReasoningDelta(reasoning)]
    case UsageReport(usage) => [UsageSeen(usage)]
    case _ => []
  }

  function FramesOf(events: seq<Event>): seq<Frame> {
    if events == [] then [] else FrameOf(events[0]) + FramesOf(events[1..])
  }

  /** An event that ends the turn at once. */
  function Stop(e: Event): Option<Outcome> {
    match e
    case Error(error) => Some(TurnFailed(error))
    case StreamError(error) => Some(TurnFailed(error))
    case Abort(reason) => Some(TurnInterrupted(reason))
    case _ => None
  }

  /** How many events are consumed before one stops the turn. */
  function Span(events: seq<Event>): (n: nat)
    ensures n <= |events|
    ensures forall i :: 0 <= i < n ==> Stop(events[i]).None?
    ensures n < |events| ==> Stop(events[n]).Some?
  {
    if events == [] || Stop(events[0]).Some? then 0 else 1 + Span(events[1..])
  }

  /** The end of the stream: a reply completes the turn, otherwise it failed. */
  function Conclude(t: Turn): Outcome {
    if t.assistant.Some? then TurnCompleted(t.answer)
    else if t.refusal.Some? && t.refusal.value != "" then TurnFailed(t.refusal.value)
    else TurnFailed(NO_FINAL_MESSAGE)
  }

  /** The turn as the events alone decide it, its consumer staying connected. */
  function Drive(events: seq<Event>): Outcome {
    var n := Span(events);
    if n < |events| then Stop(events[n]).value else Conclude(ApplyAll(EMPTY_TURN, events))
  }

  // ------------------------------------------------------------- the channel

  /** `kept` is `all` with some elements left out. */
  predicate Subsequence<T(==)>(kept: seq<T>, all: seq<T>) {
    kept == [] || (all != [] && (if kept[0] == all[0] then Subsequence(kept[1..], all[1..]) else Subsequence(kept, all[1..])))
  }

  class Channel {
    /** Frames the consumer gets, in order. */
    var delivered: seq<Frame>
    /** Frames the driver tried to send, in order. */
    ghost var offered: seq<Frame>
    var closed: bool
    /** Some frame was dropped because the channel was full. */
    ghost var overflowed: bool

    ghost predicate Valid()
      reads this
    {
      && Subsequence(delivered, offered)
      && (!closed && !overflowed ==> delivered == offered)
    }

    constructor ()
      ensures Valid() && delivered == offered == [] && !closed && !overflowed
    {
      delivered, offered, closed, overflowed := [], [], false, false;
    }

    /** `try_send`: the frame goes through, is dropped, or the consumer has left. */
    method TrySend(f: Frame) returns (connected: bool)
      requires Valid()
      modifies this
      ensures Valid() && offered == old(offered) + [f]
      ensures connected <==> !closed
      ensures old(closed) ==> closed && delivered == old(delivered)
      ensures delivered == old(delivered) || delivered == old(delivered) + [f]
      ensures old(overflowed) ==> overflowed
    {
      var leaves, full := *, *;
      SubsequenceSkip(delivered, offered, f);
      SubsequenceTake(delivered, offered, f);
      offered := offered + [f];
      closed := closed || leaves;
      if !closed {
        if full {
          overflowed := true;
        } else {
          delivered := delivered + [f];
        }
      }
      connected := !closed;
    }

    /** `send`: waits for room; lost only when the consumer leaves. */
    method Send(f: Frame)
      requires Valid()
      modifies this
      ensures Valid() && offered == old(offered) + [f]
      ensures overflowed == old(overflowed)
      ensures old(closed) ==> closed
      ensures delivered == if closed then old(delivered) else old(delivered) + [f]
    {
      var leaves := *;
      SubsequenceSkip(delivered, offered, f);
      SubsequenceTake(delivered, offered, f);
      offered := offered + [f];
      closed := closed || leaves;
      if !closed {
        delivered := delivered + [f];
      }
    }
  }

  lemma {:induction false} SubsequenceSkip<T>(kept: seq<T>, all: seq<T>, x: T)
    requires Subsequence(kept, all)
    ensures Subsequence(kept, all + [x])
  {
    if kept != [] {
      assert (all + [x])[1..] == all[1..] + [x];
      if kept[0] == all[0] {
        SubsequenceSkip(kept[1..], all[1..], x);
      } else {
        SubsequenceSkip(kept, all[1..], x);
      }
    }
  }

  lemma {:induction false} SubsequenceTake<T>(kept: seq<T>, all: seq<T>, x: T)
    requires Subsequence(kept, all)
    ensures Subsequence(kept + [x], all + [x])
  {
    if all == [] {
      assert kept + [x] == all + [x] == [x];
      assert [x][1..] == [];
    } else {
      assert (all + [x])[1..] == all[1..] + [x];
      if kept == [] {
        if x == all[0] {
          assert (kept + [x])[1..] == [];
        } else {
          SubsequenceTake(kept, all[1..], x);
        }
      } else {
        assert (kept + [x])[1..] == kept[1..] + [x];
        if kept[0] == all[0] {
          SubsequenceTake(kept[1..], all[1..], x);
        } else {
          SubsequenceTake(kept, all[1..], x);
        }
      }
    }
  }

  // ------------------------------------------------------------- the program

  /** `merge_usage`. */
  method MergeUsage(total: Option<Usage>, reported: Usage) returns (merged: Option<Usage>)
    ensures merged == Some(Merge(total, reported))
  {
    if total.None? {
      return Some(reported);
    }
    var current := total.value;
    if reported.prompt > 0 {
      current := current.(prompt := reported.prompt);
    }
    if reported.completion > 0 {
      current := current.(completion := reported.completion);
    }
    if reported.total > 0 {
      current := current.(total := reported.total);
    }
    current := current.(
      reasoning := Or(reported.reasoning, current.reasoning),
      cacheRead := Or(reported.cacheRead, current.cacheRead),
      cacheWrite := Or(reported.cacheWrite, current.cacheWrite),
      promptCost := Or(reported.promptCost, current.promptCost),
      completionCost := Or(reported.completionCost, current.completionCost),
      totalCost := Or(reported.totalCost, current.totalCost));
    merged := Some(current);
  }

  lemma {:induction false} ApplyStep(t: Turn, events: seq<Event>, i: nat)
    requires i < |events|
    ensures ApplyAll(t, events[..i + 1]) == Apply(ApplyAll(t, events[..i]), events[i])
    decreases i
  {
    if i == 0 {
      assert events[..1] == [events[0]];
      assert events[..0] == [];
    } else {
      assert events[..i + 1][1..] == events[1..][..i] && events[..i][1..] == events[1..][..i - 1];
      assert events[..i + 1][0] == events[0] == events[..i][0];
      ApplyStep(Apply(t, events[0]), events[1..], i - 1);
    }
  }

  lemma {:induction false} FramesStep(events: seq<Event>, i: nat)
    requires i < |events|
    ensures FramesOf(events[..i + 1]) == FramesOf(events[..i]) + FrameOf(events[i])
    decreases i
  {
    if i == 0 {
      assert events[..1] == [events[0]];
      assert FramesOf(events[..0]) == [] && FramesOf(events[..1][1..]) == [];
    } else {
      assert events[..i + 1][1..] == events[1..][..i] && events[..i][1..] == events[1..][..i - 1];
      FramesStep(events[1..], i - 1);
    }
  }

  lemma SpanIs(events: seq<Event>, n: nat)
    requires n <= |events|
    requires forall i :: 0 <= i < n ==> Stop(events[i]).None?
    requires n < |events| ==> Stop(events[n]).Some?
    ensures Span(events) == n
  {
  }

  /** What the turn has left behind when it returns. */
  ghost predicate Driven(events: seq<Event>, turn: Turn, outcome: Outcome, offered: seq<Frame>, closed: bool) {
    if closed then
      // The consumer left: nothing is offered after the frame that found out.
      && outcome == TurnFailed(DISCONNECTED)
      && exists n :: 0 < n <= Span(events) && offered == FramesOf(events[..n])
    else
      && outcome == Drive(events)
      && offered == FramesOf(events[..Span(events)])
      && turn == ApplyAll(EMPTY_TURN, events[..Span(events)])
  }

  method DriveTurn(events: seq<Event>, tx: Channel) returns (outcome: Outcome, turn: Turn)
    requires tx.Valid() && tx.offered == [] && !tx.closed
    modifies tx
    ensures tx.Valid()
    ensures Driven(events, turn, outcome, tx.offered, tx.closed)
  {
    hide ApplyAll, FramesOf, Merge;
    turn := EMPTY_TURN;
    NothingYet(events);
    for i := 0 to |events|
      invariant tx.Valid() && !tx.closed
      invariant forall j :: 0 <= j < i ==> Stop(events[j]).None?
      invariant turn == ApplyAll(EMPTY_TURN, events[..i])
      invariant tx.offered == FramesOf(events[..i])
    {
      var event := events[i];
      ApplyStep(EMPTY_TURN, events, i);
      FramesStep(events, i);
      var connected := true;
      match event {
        case Text(text) =>
          turn := turn.(answer := turn.answer + text);
          connected := tx.TrySend(LlmDelta(text));
        case Chunk(content) =>
          turn := turn.(answer := turn.answer + content);
          connected := tx.TrySend(LlmDelta(content));
        case Reasoning(reasoning) =>
          connected := tx.TrySend(ReasoningDelta(reasoning));
        case Reply(message) =>
          turn := turn.(assistant := Some(message));
        case FinalReply(message, usage) =>
          if usage.Some? {
            var merged := MergeUsage(turn.usage, usage.value);
            turn := turn.(usage := merged);
          }
          turn := turn.(assistant := Some(message));
        case UsageReport(usage) =>
          var merged := MergeUsage(turn.usage, usage);
          turn := turn.(usage := merged);
          connected := tx.TrySend(UsageSeen(usage));
        case Error(error) =>
          SpanIs(events, i);
          return TurnFailed(error), turn;
        case Refusal(snapshot) =>
          turn := turn.(refusal := Some(snapshot));
        case Abort(reason) =>
          SpanIs(events, i);
          return TurnInterrupted(reason), turn;
        case StreamError(error) =>
          SpanIs(events, i);
          return TurnFailed(error), turn;
        case Other =>
      }
      if !connected {
        SpanBeyond(events, i + 1);
        return TurnFailed(DISCONNECTED), turn;
      }
    }
    SpanIs(events, |events|);
    assert events[..|events|] == events;
    if turn.assistant.None? {
      return TurnFailed(if turn.refusal.Some? && turn.refusal.value != "" then turn.refusal.value else NO_FINAL_MESSAGE), turn;
    }
    outcome := TurnCompleted(turn.answer);
  }

  lemma NothingYet(events: seq<Event>)
    ensures ApplyAll(EMPTY_TURN, events[..0]) == EMPTY_TURN && FramesOf(events[..0]) == []
  {
  }

  lemma {:induction false} SpanBeyond(events: seq<Event>, n: nat)
    requires n <= |events|
    requires forall i :: 0 <= i < n ==> Stop(events[i]).None?
    ensures n <= Span(events)
  {
    if n > 0 {
      SpanBeyond(events[1..], n - 1);
    }
  }

  function TerminalFrame(outcome: Outcome): Frame {
    match outcome
    case TurnCompleted(answer) => Completed(answer)
    case TurnFailed(error) => Failed(error)
    case TurnInterrupted(reason) => Interrupted(reason)
  }

  // ------------------------------------------------------- how a turn ends

  predicate Ends(e: Event) {
    e.Error? || e.StreamError? || e.Abort?
  }

  predicate Replies(e: Event) {
    e.Reply? || e.FinalReply?
  }

  ghost predicate FirstEnd(events: seq<Event>, n: nat) {
    n < |events| && Ends(events[n]) && forall i :: 0 <= i < n ==> !Ends(events[i])
  }

  ghost predicate LastReply(events: seq<Event>, n: nat) {
    n < |events| && Replies(events[n]) && forall i :: n < i < |events| ==> !Replies(events[i])
  }

  ghost predicate LastRefusal(events: seq<Event>, n: nat) {
    n < |events| && events[n].Refusal? && forall i :: n < i < |events| ==> !events[i].Refusal?
  }

  ghost predicate Unended(events: seq<Event>) {
    forall e :: e in events ==> !Ends(e)
  }

  ghost predicate Answered(events: seq<Event>) {
    exists e :: e in events && Replies(e)
  }

  /** What the provider said, in order. */
  function Spoken(events: seq<Event>): string {
    if events == [] then ""
    else (match events[0] case Text(text) => text case Chunk(content) => content case _ => "") + Spoken(events[1..])
  }

  /** An event that ends the turn decides it. */
  ghost predicate EndedBy(e: Event, outcome: Outcome) {
    && (e.Abort? ==> outcome == TurnInterrupted(e.reason))
    && (e.Error? || e.StreamError? ==> outcome == TurnFailed(e.error))
  }

  /** Without a reply the turn fails, with the last refusal unless that is empty. */
  ghost predicate Unanswered(events: seq<Event>, outcome: Outcome) {
    && (forall n: nat :: LastRefusal(events, n) ==>
          outcome == TurnFailed(if events[n].snapshot != "" then events[n].snapshot else "chat stream ended without a final message"))
    && ((forall e :: e in events ==> !e.Refusal?) ==> outcome == TurnFailed("chat stream ended without a final message"))
  }

  /** The outcome of a turn whose consumer stays. */
  ghost predicate TurnEnds(events: seq<Event>, outcome: Outcome) {
    && (outcome.TurnCompleted? <==> Unended(events) && Answered(events))
    && (outcome.TurnCompleted? ==> outcome.answer == Spoken(events))
    && (forall n: nat :: FirstEnd(events, n) ==> EndedBy(events[n], outcome))
    && (Unended(events) && !Answered(events) ==> Unanswered(events, outcome))
  }

  /** The last reply is the one kept. */
  ghost predicate ReplyKept(events: seq<Event>, reply: Option<Message>) {
    && (reply.Some? <==> Answered(events))
    && forall n: nat :: LastReply(events, n) ==> reply == Some(events[n].message)
  }

  ghost predicate RefusalKept(events: seq<Event>, refusal: Option<string>) {
    && ((forall e :: e in events ==> !e.Refusal?) ==> refusal.None?)
    && forall n: nat :: LastRefusal(events, n) ==> refusal == Some(events[n].snapshot)
  }

  /** The events a consumer hears of. */
  predicate Heard(e: Event) {
    e.Text? || e.Chunk? || e.Reasoning? || e.UsageReport?
  }

  predicate ReportsUsage(frame: Frame, usage: Usage)
    requires frame.UsageFrame?
  {
    && frame.prompt == usage.prompt && frame.completion == usage.completion && frame.cost == usage.totalCost
    && frame.reasoning == usage.reasoning && frame.cacheRead == usage.cacheRead && frame.cacheWrite == usage.cacheWrite
    && (if usage.total == 0 then frame.total.None? else frame.total == Some(usage.total))
  }

  /** The frame tells the event. */
  predicate Shows(e: Event, frame: Frame) {
    match e
    case Text(text) => frame == LlmDelta(text)
    case Chunk(content) => frame == LlmDelta(content)
    case Reasoning(reasoning) => frame == ReasoningDelta(reasoning)
    case UsageReport(usage) => frame.UsageFrame? && ReportsUsage(frame, usage)
    case _ => false
  }

  /** One frame for each event to hear of, in their order; `at` says which frame is whose. */
  ghost predicate Shown(events: seq<Event>, frames: seq<Frame>, at: seq<nat>) {
    && |at| == |frames|
    && (forall i, j :: 0 <= i < j < |at| ==> at[i] < at[j])
    && (forall j :: 0 <= j < |at| ==> at[j] < |events| && Shows(events[at[j]], frames[j]))
    && forall i :: 0 <= i < |events| ==> (i in at <==> Heard(events[i]))
  }

  /** The events are consumed up to the first that ends the turn. */
  ghost predicate Consumed(events: seq<Event>, n: nat) {
    FirstEnd(events, n) || (n == |events| && Unended(events))
  }

  /** The frames show the first `n` events. */
  ghost predicate ShowFirst(events: seq<Event>, n: nat, frames: seq<Frame>) {
    n <= |events| && exists at: seq<nat> :: Shown(events[..n], frames, at)
  }

  lemma ShownStep(events: seq<Event>, frames: seq<Frame>, at: seq<nat>, e: Event)
    requires Shown(events, frames, at)
    ensures FrameOf(e) == [] ==> Shown(events + [e], frames, at)
    ensures FrameOf(e) != [] ==> Shown(events + [e], frames + FrameOf(e), at + [|events|])
  {
    if FrameOf(e) != [] {
      assert Shows(e, FrameOf(e)[0]) && Heard(e);
    } else {
      assert !Heard(e);
    }
    hide Shows, Heard, FrameOf;
  }

  lemma {:induction false} FramesShown(events: seq<Event>) returns (at: seq<nat>)
    ensures Shown(events, FramesOf(events), at)
    decreases |events|
  {
    if events == [] {
      at := [];
    } else {
      hide Shown, FramesOf, FrameOf;
      var last := |events| - 1;
      var before := FramesShown(events[..last]);
      ShownStep(events[..last], FramesOf(events[..last]), before, events[last]);
      FramesStep(events, last);
      assert events[..last] + [events[last]] == events == events[..last + 1];
      assert FramesOf(events[..last]) + [] == FramesOf(events[..last]);
      at := if FrameOf(events[last]) == [] then before else before + [last];
    }
  }

  lemma OfferShows(events: seq<Event>, n: nat)
    requires Consumed(events, n)
    ensures ShowFirst(events, n, FramesOf(events[..Span(events)]))
  {
    hide Shown, FramesOf, Span, FirstEnd, Unended;
    FirstEndIs(events, n);
    var at := FramesShown(events[..n]);
  }

  /** The frame that tells the outcome. */
  predicate Tells(frame: Frame, outcome: Outcome) {
    match outcome
    case TurnCompleted(answer) => frame == Completed(answer)
    case TurnFailed(error) => frame == Failed(error)
    case TurnInterrupted(reason) => frame == Interrupted(reason)
  }

  lemma {:induction false} ApplyAllLast(t: Turn, events: seq<Event>)
    requires events != []
    ensures ApplyAll(t, events) == Apply(ApplyAll(t, events[..|events| - 1]), events[|events| - 1])
  {
    ApplyStep(t, events, |events| - 1);
    assert events[..|events|] == events;
  }

  lemma ReplyStep(before: seq<Event>, reply: Option<Message>, e: Event)
    requires ReplyKept(before, reply)
    ensures ReplyKept(before + [e], if Replies(e) then Some(e.message) else reply)
  {
    var events := before + [e];
    hide Replies;
    assert forall i :: 0 <= i < |before| ==> before[i] == events[i];
    forall n: nat | LastReply(events, n) && n != |before| ensures LastReply(before, n) && events[n] == before[n] {
    }
    assert events[|before|] == e;
  }

  lemma RefusalStep(before: seq<Event>, refusal: Option<string>, e: Event)
    requires RefusalKept(before, refusal)
    ensures RefusalKept(before + [e], if e.Refusal? then Some(e.snapshot) else refusal)
  {
    var events := before + [e];
    assert forall i :: 0 <= i < |before| ==> before[i] == events[i];
    forall n: nat | LastRefusal(events, n) && n != |before| ensures LastRefusal(before, n) && events[n] == before[n] {
    }
    assert events[|before|] == e;
  }

  lemma {:induction false} RepliesKept(events: seq<Event>)
    ensures ReplyKept(events, ApplyAll(EMPTY_TURN, events).assistant)
    ensures RefusalKept(events, ApplyAll(EMPTY_TURN, events).refusal)
    decreases |events|
  {
    hide ApplyAll, Merge;
    if events == [] {
      NothingYet(events);
      assert events[..0] == events;
    } else {
      hide ReplyKept, RefusalKept;
      var last := |events| - 1;
      var before := events[..last];
      assert events == before + [events[last]];
      RepliesKept(before);
      ApplyAllLast(EMPTY_TURN, events);
      var turn := ApplyAll(EMPTY_TURN, before);
      ReplyStep(before, turn.assistant, events[last]);
      RefusalStep(before, turn.refusal, events[last]);
    }
  }

  lemma {:induction false} AnswerIsSpoken(t: Turn, events: seq<Event>)
    ensures ApplyAll(t, events).answer == t.answer + Spoken(events)
    decreases |events|
  {
    hide Merge;
    if events == [] {
      assert t.answer + "" == t.answer;
    } else {
      AnswerIsSpoken(Apply(t, events[0]), events[1..]);
      assert t.answer + "" == t.answer;
    }
  }

  lemma StopIsEnd(e: Event)
    ensures Stop(e).Some? <==> Ends(e)
    ensures Stop(e).Some? ==> EndedBy(e, Stop(e).value) && !Stop(e).value.TurnCompleted?
  {
  }

  lemma FirstEndIs(events: seq<Event>, n: nat)
    ensures FirstEnd(events, n) <==> n == Span(events) && n < |events|
    ensures Unended(events) <==> Span(events) == |events|
  {
    hide Ends, Stop, Span;
    forall e ensures Stop(e).Some? <==> Ends(e) {
      StopIsEnd(e);
    }
    if Span(events) < |events| {
      assert events[Span(events)] in events;
    }
  }

  lemma DriveEnds(events: seq<Event>)
    ensures TurnEnds(events, Drive(events))
    ensures Drive(events).TurnCompleted? ==> events[..Span(events)] == events
  {
    hide ApplyAll, Span, Stop, Spoken, Answered, LastReply, LastRefusal, FirstEnd, Unended, EndedBy;
    var n := Span(events);
    FirstEndIs(events, n);
    forall k: nat | FirstEnd(events, k) ensures k == n {
      FirstEndIs(events, k);
    }
    if n < |events| {
      StopIsEnd(events[n]);
    } else {
      AnswerIsSpoken(EMPTY_TURN, events);
      RepliesKept(events);
    }
  }

  /** The spawned driver: the turn, then its one terminal frame. */
  method RunTurn(events: seq<Event>, tx: Channel) returns (outcome: Outcome, turn: Turn)
    requires tx.Valid() && tx.offered == [] && !tx.closed && !tx.overflowed
    modifies tx
    ensures tx.Valid()
    // exactly one terminal frame, after every other frame
    ensures tx.offered != [] && tx.offered[|tx.offered| - 1] == TerminalFrame(outcome)
    ensures forall i :: 0 <= i < |tx.offered| - 1 ==> !Terminal(tx.offered[i])
    ensures Subsequence(tx.delivered, tx.offered)
    ensures !tx.closed ==> tx.delivered != [] && tx.delivered[|tx.delivered| - 1] == TerminalFrame(outcome)
    // what is offered is what a prefix of the consumed events produces
    ensures exists n :: 0 <= n <= Span(events) && tx.offered == FramesOf(events[..n]) + [TerminalFrame(outcome)]
    // a consumer that keeps up and stays gets everything
    ensures !tx.closed && !tx.overflowed ==> tx.delivered == FramesOf(events[..Span(events)]) + [TerminalFrame(Drive(events))]
    ensures !tx.closed ==> outcome == Drive(events)
    ensures outcome == Drive(events) || (tx.closed && outcome == TurnFailed(DISCONNECTED))
    // how the turn ends, and what tells it
    ensures TurnEnds(events, outcome) || (tx.closed && outcome == TurnFailed("chat consumer disconnected"))
    ensures !tx.closed ==> TurnEnds(events, outcome)
    ensures !tx.closed && outcome.TurnCompleted? ==> ReplyKept(events, turn.assistant)
    ensures !tx.closed && outcome.TurnCompleted? ==>
      turn.usage == if Reports(events) == [] then None else Some(Latest(Reports(events)))
    ensures Tells(tx.offered[|tx.offered| - 1], outcome)
    // what the consumer who stays is offered before that
    ensures !tx.closed ==> forall n: nat :: Consumed(events, n) ==> ShowFirst(events, n, tx.offered[..|tx.offered| - 1])
  {
    DriveEnds(events);
    RepliesKept(events);
    TurnUsage(EMPTY_TURN, events);
    if Reports(events) != [] {
      MergedUsageIsLatest(Reports(events));
    }
    hide TurnEnds, ReplyKept, RefusalKept, Consumed, ShowFirst, Latest, Reports;
    forall n: nat | Consumed(events, n)
      ensures ShowFirst(events, n, FramesOf(events[..Span(events)]))
    {
      OfferShows(events, n);
    }
    outcome, turn := DriveTurn(events, tx);
    ghost var deltas := tx.offered;
    FramesNotTerminal(events);
    tx.Send(TerminalFrame(outcome));
  }

  lemma FramesNotTerminal(events: seq<Event>)
    ensures forall n, i :: 0 <= n <= |events| && 0 <= i < |FramesOf(events[..n])| ==> !Terminal(FramesOf(events[..n])[i])
  {
    forall n | 0 <= n <= |events|
      ensures forall i :: 0 <= i < |FramesOf(events[..n])| ==> !Terminal(FramesOf(events[..n])[i])
    {
      NoneTerminal(events[..n]);
    }
  }

  lemma {:induction false} NoneTerminal(events: seq<Event>)
    ensures forall i :: 0 <= i < |FramesOf(events)| ==> !Terminal(FramesOf(events)[i])
  {
    if events != [] {
      NoneTerminal(events[1..]);
    }
  }

  // ------------------------------------------------- what a turn says and counts

  /** The text a consumer reads off the delta frames. */
  function DeltaText(frames: seq<Frame>): string {
    if frames == [] then ""
    else Said(frames[0]) + DeltaText(frames[1..])
  }

  /** The usage blocks a stream reports, in order. */
  function Reports(events: seq<Event>): seq<Usage> {
    if events == [] then [] else ReportOf(events[0]) + Reports(events[1..])
  }

  function ReportOf(e: Event): seq<Usage> {
    match e
    case UsageReport(usage) => [usage]
    case FinalReply(_, Some(usage)) => [usage]
    case _ => []
  }

  /** The turn's answer is what its delta frames say. */
  lemma {:induction false} TurnAnswer(t: Turn, events: seq<Event>)
    ensures ApplyAll(t, events).answer == t.answer + DeltaText(FramesOf(events))
    decreases |events|
  {
    hide Apply, FrameOf, DeltaText, FramesOf;
    TextConcat(t.answer, events);
    if events != [] {
      var own, rest := FrameOf(events[0]), FramesOf(events[1..]);
      TurnAnswer(Apply(t, events[0]), events[1..]);
      EventText(t, events[0]);
      DeltaConcat(own, rest);
      Regroup(t.answer, DeltaText(own), DeltaText(rest));
    }
  }

  lemma TextConcat(answer: string, events: seq<Event>)
    ensures events == [] ==> answer + DeltaText(FramesOf(events)) == answer
    ensures events != [] ==> FramesOf(events) == FrameOf(events[0]) + FramesOf(events[1..])
  {
  }

  lemma Regroup(a: string, b: string, c: string)
    ensures (a + b) + c == a + (b + c)
  {
  }

  lemma EventText(t: Turn, e: Event)
    ensures Apply(t, e).answer == t.answer + DeltaText(FrameOf(e))
  {
    hide Merge;
    if FrameOf(e) == [] {
      assert t.answer + "" == t.answer;
    } else {
      assert FrameOf(e)[1..] == [] && DeltaText([]) == "";
      assert t.answer + "" == t.answer;
    }
  }

  /** The turn's usage is the merge of every report. */
  lemma {:induction false} TurnUsage(t: Turn, events: seq<Event>)
    ensures ApplyAll(t, events).usage == MergeAll(t.usage, Reports(events))
    decreases |events|
  {
    hide Merge;
    if events != [] {
      var own := ReportOf(events[0]);
      TurnUsage(Apply(t, events[0]), events[1..]);
      if own != [] {
        assert (own + Reports(events[1..]))[1..] == Reports(events[1..]);
      } else {
        assert own + Reports(events[1..]) == Reports(events[1..]);
      }
    }
  }

  function Said(f: Frame): string {
    if f.LlmDelta? then f.content else ""
  }

  lemma DeltaFirst(f: Frame, rest: seq<Frame>)
    ensures DeltaText([f] + rest) == Said(f) + DeltaText(rest)
  {
    assert ([f] + rest)[1..] == rest;
  }

  lemma DeltaNone()
    ensures DeltaText([]) == ""
  {
  }

  lemma {:induction false} DeltaConcat(a: seq<Frame>, b: seq<Frame>)
    ensures DeltaText(a + b) == DeltaText(a) + DeltaText(b)
  {
    hide DeltaText, Said;
    if a == [] {
      DeltaNone();
      assert a + b == b;
      assert "" + DeltaText(b) == DeltaText(b);
    } else {
      var rest := a[1..];
      DeltaConcat(rest, b);
      assert a == [a[0]] + rest && a + b == [a[0]] + (rest + b);
      DeltaFirst(a[0], rest);
      DeltaFirst(a[0], rest + b);
      Regroup(Said(a[0]), DeltaText(rest), DeltaText(b));
    }
  }

  /** A completed turn whose frames all arrive: the deltas add up to the answer it reports. */
  lemma DeliveredTextIsAnswer(events: seq<Event>)
    requires Drive(events).TurnCompleted?
    ensures Drive(events).answer == DeltaText(FramesOf(events[..Span(events)]))
  {
    CompletedAll(events);
    TurnAnswer(EMPTY_TURN, events);
    var said := DeltaText(FramesOf(events));
    assert "" + said == said;
  }

  lemma CompletedAll(events: seq<Event>)
    requires Drive(events).TurnCompleted?
    ensures events[..Span(events)] == events && Drive(events).answer == ApplyAll(EMPTY_TURN, events).answer
  {
    hide ApplyAll;
  }

  // ------------------------------------------------------------ usage, any split

  function LastPositive(counts: seq<nat>): nat {
    if counts == [] then 0
    else
      var last := |counts| - 1;
      if counts[last] > 0 then counts[last] else LastPositive(counts[..last])
  }

  function LastPresent<T>(values: seq<Option<T>>): Option<T> {
    if values == [] then None
    else
      var last := |values| - 1;
      if values[last].Some? then values[last] else LastPresent(values[..last])
  }

  function Field<T>(reports: seq<Usage>, field: Usage -> T): (values: seq<T>)
    ensures |values| == |reports|
    ensures forall i :: 0 <= i < |reports| ==> values[i] == field(reports[i])
  {
    seq(|reports|, i requires 0 <= i < |reports| => field(reports[i]))
  }

  /** Per field: the last count above zero, or the last value present. */
  function Latest(reports: seq<Usage>): Usage {
    Usage(
      LastPositive(Field(reports, (u: Usage) => u.prompt)),
      LastPositive(Field(reports, (u: Usage) => u.completion)),
      LastPositive(Field(reports, (u: Usage) => u.total)),
      LastPresent(Field(reports, (u: Usage) => u.reasoning)),
      LastPresent(Field(reports, (u: Usage) => u.cacheRead)),
      LastPresent(Field(reports, (u: Usage) => u.cacheWrite)),
      LastPresent(Field(reports, (u: Usage) => u.promptCost)),
      LastPresent(Field(reports, (u: Usage) => u.completionCost)),
      LastPresent(Field(reports, (u: Usage) => u.totalCost)))
  }

  lemma {:induction false} MergeAllStep(total: Option<Usage>, reports: seq<Usage>, last: Usage)
    ensures MergeAll(total, reports + [last]) == Some(Merge(MergeAll(total, reports), last))
    decreases |reports|
  {
    if reports == [] {
      assert (reports + [last])[1..] == [];
    } else {
      assert (reports + [last])[1..] == reports[1..] + [last];
      MergeAllStep(Some(Merge(total, reports[0])), reports[1..], last);
    }
  }

  lemma LatestStep(reports: seq<Usage>, last: Usage)
    ensures Latest(reports + [last]) == Merge(Some(Latest(reports)), last)
  {
    FieldStep(reports, last, (u: Usage) => u.prompt);
    FieldStep(reports, last, (u: Usage) => u.completion);
    FieldStep(reports, last, (u: Usage) => u.total);
    FieldStep(reports, last, (u: Usage) => u.reasoning);
    FieldStep(reports, last, (u: Usage) => u.cacheRead);
    FieldStep(reports, last, (u: Usage) => u.cacheWrite);
    FieldStep(reports, last, (u: Usage) => u.promptCost);
    FieldStep(reports, last, (u: Usage) => u.completionCost);
    FieldStep(reports, last, (u: Usage) => u.totalCost);
  }

  lemma FieldStep<T>(reports: seq<Usage>, last: Usage, field: Usage -> T)
    ensures Field(reports + [last], field) == Field(reports, field) + [field(last)]
    ensures Field(reports + [last], field)[..|reports|] == Field(reports, field)
  {
  }

  lemma OneReport(report: Usage)
    ensures MergeAll(None, [report]) == Some(Latest([report]))
  {
    var nothing := Latest([]);
    LatestStep([], report);
    assert [] + [report] == [report] && [report][1..] == [];
    assert nothing == Usage(0, 0, 0, None, None, None, None, None, None);
  }

  /** However the reports are split up, the merged usage is the latest value of each field. */
  lemma {:induction false} MergedUsageIsLatest(reports: seq<Usage>)
    requires reports != []
    ensures MergeAll(None, reports) == Some(Latest(reports))
  {
    hide Latest, Merge, MergeAll;
    var last := |reports| - 1;
    if last == 0 {
      OneReport(reports[0]);
      assert reports == [reports[0]];
    } else {
      assert reports == reports[..last] + [reports[last]];
      MergedUsageIsLatest(reports[..last]);
      MergeAllStep(None, reports[..last], reports[last]);
      LatestStep(reports[..last], reports[last]);
    }
  }
}

/**
 The resource sampler's storage counters: cumulative operation counts read at every
 tick and exported as increments.
 */
module DeltaSampler {
  import opened Wrappers

  datatype Op = Save | Load | Delete | List | Exists | Clear | Batch

  const OPS: seq<Op> := [Save, Load, Delete, List, Exists, Clear, Batch]

  /** The count read last and the exported counter, for the operations that have one. */
  datatype State = State(last: map<Op, nat>, counters: map<Op, nat>)

  type Snapshot = Op -> nat

  function Increase(from: nat, to: nat): nat {
    if to > from then to - from else 0
  }

  /** What a state holds of one operation. */
  datatype Series = Series(last: Option<nat>, counter: Option<nat>)

  function Of(s: State, op: Op): Series {
    Series(if op in s.last then Some(s.last[op]) else None, if op in s.counters then Some(s.counters[op]) else None)
  }

  function Exported(s: State, op: Op): nat {
    if op in s.counters then s.counters[op] else 0
  }

  /** One reading of one operation: the first only sets the baseline. */
  function Read(s: Series, count: nat): Series {
    var delta := if s.last.Some? then Increase(s.last.value, count) else 0;
    Series(Some(count), if delta > 0 then Some((if s.counter.Some? then s.counter.value else 0) + delta) else s.counter)
  }

  /** What a tick does: every operation is read once. */
  predicate Ticked(s: State, t: State, snapshot: Snapshot) {
    forall op :: Of(t, op) == Read(Of(s, op), snapshot(op))
  }

  class Sampler {
    var last: map<Op, nat>
    var counters: map<Op, nat>

    constructor ()
      ensures Value() == State(map[], map[])
    {
      last := map[];
      counters := map[];
    }

    function Value(): State
      reads this
    {
      State(last, counters)
    }

    /** One tick. */
    method Sample(snapshot: Snapshot)
      modifies this
      ensures Ticked(old(Value()), Value(), snapshot)
    {
      ghost var before := Value();
      for i := 0 to |OPS|
        invariant forall op :: Of(Value(), op) == if op in OPS[..i] then Read(Of(before, op), snapshot(op)) else Of(before, op)
      {
        var op := OPS[i];
        EachOnce(i);
        assert Of(Value(), op) == Of(before, op);
        var count := snapshot(op);
        if op in last {
          var delta := Increase(last[op], count);
          if delta > 0 {
            counters := counters[op := (if op in counters then counters[op] else 0) + delta];
          }
        }
        last := last[op := count];
      }
      forall op ensures op in OPS[..|OPS|] {
        AllOps(op);
      }
    }
  }

  lemma EachOnce(i: nat)
    requires i < |OPS|
    ensures OPS[i] !in OPS[..i] && OPS[..i + 1] == OPS[..i] + [OPS[i]]
  {
  }

  lemma AllOps(op: Op)
    ensures op in OPS && op in OPS[..|OPS|]
  {
    assert OPS[..|OPS|] == OPS;
    match op
    case Save => assert OPS[0] == op;
    case Load => assert OPS[1] == op;
    case Delete => assert OPS[2] == op;
    case List => assert OPS[3] == op;
    case Exists => assert OPS[4] == op;
    case Clear => assert OPS[5] == op;
    case Batch => assert OPS[6] == op;
  }

  // ------------------------------------------------------------ runs of ticks

  /** The states of a sampler over a run of ticks, one per reading. */
  predicate Run(states: seq<State>, snapshots: seq<Snapshot>) {
    && |states| == |snapshots| + 1
    && states[0] == State(map[], map[])
    && forall k :: 0 <= k < |snapshots| ==> Ticked(states[k], states[k + 1], snapshots[k])
  }

  /** The rises between consecutive readings, and the falls. */
  function Rises(snapshots: seq<Snapshot>, op: Op): nat {
    var n := |snapshots|;
    if n <= 1 then 0 else Rises(snapshots[..n - 1], op) + Increase(snapshots[n - 2](op), snapshots[n - 1](op))
  }

  function Falls(snapshots: seq<Snapshot>, op: Op): nat {
    var n := |snapshots|;
    if n <= 1 then 0 else Falls(snapshots[..n - 1], op) + Increase(snapshots[n - 1](op), snapshots[n - 2](op))
  }

  predicate NeverFalls(snapshots: seq<Snapshot>, op: Op) {
    forall k, l :: 0 <= k < l < |snapshots| ==> snapshots[k](op) <= snapshots[l](op)
  }

  /** The exported counter is the sum of the rises since the first tick. */
  lemma {:induction false} ExportedIsRises(states: seq<State>, snapshots: seq<Snapshot>, op: Op)
    requires Run(states, snapshots)
    ensures Exported(states[|snapshots|], op) == Rises(snapshots, op)
    ensures op in states[|snapshots|].last <==> snapshots != []
    ensures snapshots != [] ==> states[|snapshots|].last[op] == snapshots[|snapshots| - 1](op)
    ensures op in states[|snapshots|].counters <==> Rises(snapshots, op) > 0
  {
    hide Ticked, Of;
    var n := |snapshots|;
    if n > 0 {
      ShorterRun(states, snapshots);
      ExportedIsRises(states[..n], snapshots[..n - 1], op);
      assert Ticked(states[n - 1], states[n], snapshots[n - 1]);
      OneTick(states[n - 1], states[n], snapshots[n - 1], op);
    }
  }

  lemma OneTick(s: State, t: State, snapshot: Snapshot, op: Op)
    requires Ticked(s, t, snapshot)
    ensures var delta := if op in s.last then Increase(s.last[op], snapshot(op)) else 0;
            && op in t.last && t.last[op] == snapshot(op)
            && Exported(t, op) == Exported(s, op) + delta
            && (op in t.counters <==> op in s.counters || delta > 0)
  {
    assert Of(t, op) == Read(Of(s, op), snapshot(op));
  }

  lemma ShorterRun(states: seq<State>, snapshots: seq<Snapshot>)
    requires Run(states, snapshots) && snapshots != []
    ensures Run(states[..|snapshots|], snapshots[..|snapshots| - 1])
  {
    hide Ticked;
    var n := |snapshots|;
    forall k | 0 <= k < n - 1 ensures Ticked(states[..n][k], states[..n][k + 1], snapshots[..n - 1][k]) {
      assert Ticked(states[k], states[k + 1], snapshots[k]);
    }
  }

  lemma {:induction false} RisesMinusFalls(snapshots: seq<Snapshot>, op: Op)
    requires snapshots != []
    ensures snapshots[0](op) + Rises(snapshots, op) == snapshots[|snapshots| - 1](op) + Falls(snapshots, op)
  {
    if |snapshots| > 1 {
      RisesMinusFalls(snapshots[..|snapshots| - 1], op);
    }
  }

  lemma {:induction false} NoFallsIffMonotone(snapshots: seq<Snapshot>, op: Op)
    ensures Falls(snapshots, op) == 0 <==> NeverFalls(snapshots, op)
  {
    hide NeverFalls;
    var n := |snapshots|;
    if n > 1 {
      NoFallsIffMonotone(snapshots[..n - 1], op);
      NeverFallsNext(snapshots, op);
    } else {
      OneReading(snapshots, op);
    }
  }

  lemma OneReading(snapshots: seq<Snapshot>, op: Op)
    requires |snapshots| <= 1
    ensures NeverFalls(snapshots, op)
  {
  }

  lemma NeverFallsNext(snapshots: seq<Snapshot>, op: Op)
    requires |snapshots| > 1
    ensures var n := |snapshots|;
            NeverFalls(snapshots, op) <==> NeverFalls(snapshots[..n - 1], op) && snapshots[n - 2](op) <= snapshots[n - 1](op)
  {
    var n := |snapshots|;
    var before := snapshots[..n - 1];
    if NeverFalls(before, op) && snapshots[n - 2](op) <= snapshots[n - 1](op) {
      forall k, l | 0 <= k < l < n ensures snapshots[k](op) <= snapshots[l](op) {
        assert before[k](op) <= before[n - 2](op);
        if l < n - 1 {
          assert before[k](op) <= before[l](op);
        }
      }
    }
  }

  /** No operation is lost or counted twice exactly when the count never went down between two ticks. */
  lemma ExportedIsGrowthIff(states: seq<State>, snapshots: seq<Snapshot>, op: Op)
    requires Run(states, snapshots) && snapshots != []
    ensures snapshots[0](op) + Exported(states[|snapshots|], op) == snapshots[|snapshots| - 1](op) <==> NeverFalls(snapshots, op)
  {
    ExportedIsRises(states, snapshots, op);
    RisesMinusFalls(snapshots, op);
    NoFallsIffMonotone(snapshots, op);
  }

  /** So when, and how often, the ticks in between happen does not matter. */
  lemma TickTimesIrrelevant(a: seq<State>, ticksA: seq<Snapshot>, b: seq<State>, ticksB: seq<Snapshot>, op: Op)
    requires Run(a, ticksA) && Run(b, ticksB) && ticksA != [] && ticksB != []
    requires NeverFalls(ticksA, op) && NeverFalls(ticksB, op)
    requires ticksA[0](op) == ticksB[0](op) && ticksA[|ticksA| - 1](op) == ticksB[|ticksB| - 1](op)
    ensures Exported(a[|ticksA|], op) == Exported(b[|ticksB|], op)
  {
    ExportedIsGrowthIff(a, ticksA, op);
    ExportedIsGrowthIff(b, ticksB, op);
  }
}

/**
 The admission gate of agent executions under live reconfiguration: every change of
 the limit starts a new gate, and permits belong to the gate they were taken from.
 */
module Capacity {
  /** One gate: its limit, its free slots, its counter of held permits. */
  datatype Gate = Gate(max: nat, available: int, active: int)

  function Fresh(max: nat): Gate {
    Gate(max, max, 0)
  }

  /** The two halves of an acquisition, and the two halves of a release, in the order they happen. */
  function SlotTaken(g: Gate): Gate {
    g.(available := g.available - 1)
  }

  function PermitCounted(g: Gate): Gate {
    g.(active := g.active + 1)
  }

  function PermitUncounted(g: Gate): Gate {
    g.(active := g.active - 1)
  }

  function SlotReturned(g: Gate): Gate {
    g.(available := g.available + 1)
  }

  /** `max_concurrent.saturating_sub(available_permits)`, the sampled number of active executions. */
  function SampledActive(g: Gate): nat {
    if g.max >= g.available >= 0 then g.max - g.available else 0
  }

  // ------------------------------------------------------------- the gate itself

  class ConcurrencyGate {
    const max: nat
    var available: int
    var active: int

    constructor (max: nat)
      ensures State() == Fresh(max)
    {
      this.max := max;
      available := max;
      active := 0;
    }

    function State(): Gate
      reads this
    {
      Gate(max, available, active)
    }
  }

  class GatePermit {
    const gate: ConcurrencyGate

    constructor (gate: ConcurrencyGate)
      ensures this.gate == gate
    {
      this.gate := gate;
    }

    /** `Drop`: the counter first, then the slot; always those of the permit's own gate. */
    method Release()
      modifies gate
      ensures gate.State() == SlotReturned(PermitUncounted(old(gate.State())))
    {
      gate.active := gate.active - 1;
      gate.available := gate.available + 1;
    }
  }

  class AgentCapacityGate {
    var gate: ConcurrencyGate

    constructor (max: nat)
      ensures fresh(gate) && gate.State() == Fresh(max)
    {
      gate := new ConcurrencyGate(max);
    }

    method SetMaxConcurrent(max: nat)
      modifies this
      ensures fresh(gate) && gate.State() == Fresh(max)
    {
      gate := new ConcurrencyGate(max);
    }

    method TryAcquire() returns (permit: GatePermit?)
      modifies gate
      ensures permit != null <==> old(gate.available) > 0
      ensures permit != null ==> fresh(permit) && permit.gate == gate && gate.State() == PermitCounted(SlotTaken(old(gate.State())))
      ensures permit == null ==> gate.State() == old(gate.State())
    {
      if gate.available <= 0 {
        return null;
      }
      gate.available := gate.available - 1;
      gate.active := gate.active + 1;
      permit := new GatePermit(gate);
    }

    method Sample() returns (activeExecutions: nat)
      ensures activeExecutions == SampledActive(gate.State())
    {
      activeExecutions := SampledActive(gate.State());
    }
  }

  // ------------------------------------------------------- every interleaving

  /** A permit has its slot but is not counted yet, is held, or is not counted any more but still has its slot. */
  datatype Stage = Taken | Held | Leaving

  datatype Permit = Permit(gate: nat, stage: Stage)

  /** All gates so far, the last one current, and the permits with a slot. */
  datatype State = State(gates: seq<Gate>, permits: map<int, Permit>)

  datatype Step = Take(id: int) | CountIn(id: int) | CountOut(id: int) | Return(id: int) | SetMax(max: nat) | Refuse

  function Current(s: State): nat
    requires s.gates != []
  {
    |s.gates| - 1
  }

  predicate Enabled(s: State, step: Step) {
    s.gates != [] &&
    match step
    case Take(id) => id !in s.permits && s.gates[Current(s)].available > 0
    case CountIn(id) => id in s.permits && s.permits[id].stage.Taken? && s.permits[id].gate < |s.gates|
    case CountOut(id) => id in s.permits && s.permits[id].stage.Held? && s.permits[id].gate < |s.gates|
    case Return(id) => id in s.permits && s.permits[id].stage.Leaving? && s.permits[id].gate < |s.gates|
    case SetMax(_) => true
    case Refuse => s.gates[Current(s)].available <= 0
  }

  function OnGate(s: State, g: nat, gate: Gate, permits: map<int, Permit>): State
    requires g < |s.gates|
  {
    State(s.gates[g := gate], permits)
  }

  function Apply(s: State, step: Step): State
    requires Enabled(s, step)
  {
    match step
    case Take(id) =>
      OnGate(s, Current(s), SlotTaken(s.gates[Current(s)]), s.permits[id := Permit(Current(s), Taken)])
    case CountIn(id) =>
      var g := s.permits[id].gate;
      OnGate(s, g, PermitCounted(s.gates[g]), s.permits[id := Permit(g, Held)])
    case CountOut(id) =>
      var g := s.permits[id].gate;
      OnGate(s, g, PermitUncounted(s.gates[g]), s.permits[id := Permit(g, Leaving)])
    case Return(id) =>
      var g := s.permits[id].gate;
      OnGate(s, g, SlotReturned(s.gates[g]), s.permits - {id})
    case SetMax(max) => State(s.gates + [Fresh(max)], s.permits)
    case Refuse => s
  }

  predicate Run(max: nat, states: seq<State>, steps: seq<Step>) {
    && |states| == |steps| + 1
    && states[0] == State([Fresh(max)], map[])
    && forall i :: 0 <= i < |steps| ==> Enabled(states[i], steps[i]) && states[i + 1] == Apply(states[i], steps[i])
  }

  function PermitsOf(s: State, g: nat): set<int> {
    set id | id in s.permits && s.permits[id].gate == g
  }

  function HeldOf(s: State, g: nat): set<int> {
    set id | id in s.permits && s.permits[id].gate == g && s.permits[id].stage.Held?
  }

  /** Free slots and slots out make up the limit of every gate, and its counter counts its held permits. */
  predicate Balanced(s: State, g: nat)
    requires g < |s.gates|
  {
    && s.gates[g].available >= 0
    && s.gates[g].available + |PermitsOf(s, g)| == s.gates[g].max
    && s.gates[g].active == |HeldOf(s, g)|
  }

  predicate Conserved(s: State) {
    && s.gates != []
    && (forall id :: id in s.permits ==> s.permits[id].gate < |s.gates|)
    && forall g :: 0 <= g < |s.gates| ==> Balanced(s, g)
  }

  function In(s: State, g: nat, id: int): nat {
    if id in s.permits && s.permits[id].gate == g then 1 else 0
  }

  function HeldIn(s: State, g: nat, id: int): nat {
    if id in s.permits && s.permits[id].gate == g && s.permits[id].stage.Held? then 1 else 0
  }

  lemma Without(a: set<int>, b: set<int>, id: int)
    requires forall x :: x != id ==> (x in a <==> x in b)
    ensures a - {id} == b - {id}
  {
    forall x ensures x in a - {id} <==> x in b - {id} {
    }
  }

  lemma OneMore(a: set<int>, b: set<int>, id: int)
    requires forall x :: x != id ==> (x in a <==> x in b)
    ensures |b| == |a| - (if id in a then 1 else 0) + (if id in b then 1 else 0)
  {
    Without(a, b, id);
    assert id in a ==> a == (a - {id}) + {id};
    assert id in b ==> b == (b - {id}) + {id};
    assert id !in a ==> a == a - {id};
    assert id !in b ==> b == b - {id};
  }

  /** A change of one permit changes the counts by that permit. */
  lemma OnePermit(s: State, t: State, g: nat, id: int)
    requires forall x :: x != id ==> (x in s.permits <==> x in t.permits) && (x in s.permits ==> s.permits[x] == t.permits[x])
    ensures |PermitsOf(t, g)| == |PermitsOf(s, g)| - In(s, g, id) + In(t, g, id)
    ensures |HeldOf(t, g)| == |HeldOf(s, g)| - HeldIn(s, g, id) + HeldIn(t, g, id)
  {
    OneMore(PermitsOf(s, g), PermitsOf(t, g), id);
    OneMore(HeldOf(s, g), HeldOf(t, g), id);
  }

  /** A step on one permit changes the counts of its own gate and of no other. */
  lemma StepBalances(s: State, step: Step, g: nat)
    requires Conserved(s) && Enabled(s, step) && g < |s.gates|
    ensures Balanced(Apply(s, step), g)
  {
    hide PermitsOf, HeldOf;
    assert Balanced(s, g);
    if step.SetMax? || step.Refuse? {
      OnePermit(s, Apply(s, step), g, 0);
    } else {
      OnePermit(s, Apply(s, step), g, step.id);
    }
  }

  lemma NewGateBalanced(s: State, max: nat)
    requires Conserved(s)
    ensures Balanced(Apply(s, SetMax(max)), |s.gates|)
  {
    var t := Apply(s, SetMax(max));
    assert forall id :: id !in PermitsOf(t, |s.gates|) && id !in HeldOf(t, |s.gates|);
    assert PermitsOf(t, |s.gates|) == {};
    assert HeldOf(t, |s.gates|) == {};
  }

  lemma StepConserves(s: State, step: Step)
    requires Conserved(s) && Enabled(s, step)
    ensures Conserved(Apply(s, step))
  {
    hide Balanced;
    forall g | 0 <= g < |Apply(s, step).gates| ensures Balanced(Apply(s, step), g) {
      if g < |s.gates| {
        StepBalances(s, step, g);
      } else {
        NewGateBalanced(s, step.max);
      }
    }
  }

  /** Over every interleaving of acquisitions, releases and reconfigurations, at every moment. */
  lemma {:induction false} RunConserves(max: nat, states: seq<State>, steps: seq<Step>, n: nat)
    requires Run(max, states, steps) && n < |states|
    ensures Conserved(states[n])
  {
    hide Apply, Enabled;
    if n == 0 {
      StartConserved(max);
    } else {
      RunConserves(max, states, steps, n - 1);
      StepConserves(states[n - 1], steps[n - 1]);
    }
  }

  lemma StartConserved(max: nat)
    ensures Conserved(State([Fresh(max)], map[]))
  {
    var s := State([Fresh(max)], map[]);
    assert PermitsOf(s, 0) == {} && HeldOf(s, 0) == {};
  }

  /** At any moment of any run an acquisition gets a slot, rather than a refusal, exactly when fewer than the current limit are out. */
  lemma AdmittedIffRoom(max: nat, states: seq<State>, steps: seq<Step>, n: nat, id: int)
    requires Run(max, states, steps) && n < |states| && id !in states[n].permits
    ensures var s := states[n]; s.gates != []
    ensures var s := states[n]; Enabled(s, Take(id)) <==> |PermitsOf(s, Current(s))| < s.gates[Current(s)].max
    ensures var s := states[n]; Enabled(s, Refuse) <==> |PermitsOf(s, Current(s))| >= s.gates[Current(s)].max
  {
    RunConserves(max, states, steps, n);
    assert Balanced(states[n], Current(states[n]));
  }

  /** The sampled number is the permits of the current gate, those on their way in or out included. */
  lemma SampleIsCurrentPermits(max: nat, states: seq<State>, steps: seq<Step>, n: nat)
    requires Run(max, states, steps) && n < |states|
    ensures var s := states[n]; s.gates != [] && SampledActive(s.gates[Current(s)]) == |PermitsOf(s, Current(s))|
  {
    RunConserves(max, states, steps, n);
    assert Balanced(states[n], Current(states[n]));
  }

  /** Nothing that happens to a permit of a replaced gate shows in the current one. */
  lemma ReplacedPermitsApart(s: State, step: Step)
    requires Enabled(s, step) && (step.CountIn? || step.CountOut? || step.Return?)
    requires s.permits[step.id].gate != Current(s)
    ensures Apply(s, step).gates[Current(s)] == s.gates[Current(s)] && |Apply(s, step).gates| == |s.gates|
    ensures PermitsOf(Apply(s, step), Current(s)) == PermitsOf(s, Current(s))
  {
  }

  function Replaced(s: State): set<int>
    requires s.gates != []
  {
    set id | id in s.permits && s.permits[id].gate != Current(s)
  }

  /**
   The limit binds the current gate only: all running executions together stay within
   it exactly as long as the permits of replaced gates fit into its free slots.
   */
  lemma TotalWithinLimitIff(max: nat, states: seq<State>, steps: seq<Step>, n: nat)
    requires Run(max, states, steps) && n < |states|
    ensures var s := states[n];
            s.gates != [] && (|s.permits| <= s.gates[Current(s)].max <==> |Replaced(s)| <= s.gates[Current(s)].available)
  {
    RunConserves(max, states, steps, n);
    var s := states[n];
    assert Balanced(s, Current(s));
    assert s.permits.Keys == PermitsOf(s, Current(s)) + Replaced(s);
    assert |s.permits| == |s.permits.Keys|;
  }
}

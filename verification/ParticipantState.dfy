/** A participant's state, moved forward by racing compare-and-exchange loops. */
module ParticipantState {

  /** Joining, Joined, Active and Disconnected are 0 to 3. */
  type Value = n: int | 0 <= n <= 3

  /** A call of set_state: it has yet to load, waits to exchange against the
      value it saw, or has returned. */
  datatype Phase = Loading | Trying(seen: Value) | Done(changed: bool)

  datatype Call = Call(target: Value, attempts: nat, phase: Phase)

  datatype World = World(state: Value, calls: map<nat, Call>)

  datatype Step = Start(id: nat, target: Value) | Advance(id: nat)

  /** The check at the top of the loop. */
  function Saw(c: Call, seen: Value): Call {
    c.(phase := if c.target <= seen then Done(false) else Trying(seen))
  }

  /** One atomic load or exchange. */
  function NextState(state: Value, c: Call): Value {
    if c.phase.Trying? && c.phase.seen == state then c.target else state
  }

  function NextCall(state: Value, c: Call): Call {
    match c.phase
    case Loading => Saw(c, state)
    case Trying(seen) =>
      var tried := c.(attempts := c.attempts + 1);
      if seen == state then tried.(phase := Done(true)) else Saw(tried, state)
    case Done(_) => c
  }

  function Apply(w: World, step: Step): World {
    match step
    case Start(id, target) =>
      if id in w.calls then w else w.(calls := w.calls[id := Call(target, 0, Loading)])
    case Advance(id) =>
      if id !in w.calls then w
      else
        var c := w.calls[id];
        World(NextState(w.state, c), w.calls[id := NextCall(w.state, c)])
  }

  function Run(start: Value, steps: seq<Step>): World {
    if steps == [] then World(start, map[])
    else Apply(Run(start, steps[..|steps| - 1]), steps[|steps| - 1])
  }

  // -------------------------------------------------------------------------
  // Invariants
  // -------------------------------------------------------------------------

  predicate CallOk(start: Value, state: Value, c: Call) {
    match c.phase
    case Loading => c.attempts == 0
    case Trying(seen) => c.attempts <= seen <= state && seen < c.target
    case Done(changed) => c.attempts <= 3 && c.target <= state && (changed ==> start < c.target)
  }

  predicate Won(c: Call) {
    c.phase == Done(true)
  }

  predicate WinsDiffer(calls: map<nat, Call>) {
    forall i, j | i in calls && j in calls && i != j && Won(calls[i]) && Won(calls[j]) ::
      calls[i].target != calls[j].target
  }

  /** The state is where it started or where the last winner put it. */
  predicate Explained(start: Value, state: Value, calls: map<nat, Call>) {
    state == start || exists i | i in calls :: Won(calls[i]) && calls[i].target == state
  }

  predicate Inv(start: Value, w: World) {
    start <= w.state
    && (forall id | id in w.calls :: CallOk(start, w.state, w.calls[id]))
    && WinsDiffer(w.calls)
    && Explained(start, w.state, w.calls)
  }

  lemma AdvanceOk(start: Value, state: Value, c: Call)
    requires start <= state && CallOk(start, state, c)
    ensures state <= NextState(state, c) && CallOk(start, NextState(state, c), NextCall(state, c))
    ensures Won(NextCall(state, c)) && !Won(c) ==> state < c.target == NextState(state, c)
    ensures !Won(NextCall(state, c)) ==> NextState(state, c) == state
    ensures NextCall(state, c).target == c.target && (Won(c) ==> NextCall(state, c) == c && NextState(state, c) == state)
  {
  }

  lemma StepKeepsInv(start: Value, w: World, step: Step)
    requires Inv(start, w)
    ensures Inv(start, Apply(w, step)) && w.state <= Apply(w, step).state
  {
    if step.Advance? && step.id in w.calls {
      AdvanceOk(start, w.state, w.calls[step.id]);
      WinsStayDifferent(start, w, step.id);
      StaysExplained(start, w, step.id);
    } else if w.state != start {
      var i :| i in w.calls && Won(w.calls[i]) && w.calls[i].target == w.state;
      assert i in Apply(w, step).calls && Won(Apply(w, step).calls[i]);
    }
  }

  lemma WinsStayDifferent(start: Value, w: World, id: nat)
    requires Inv(start, w) && id in w.calls
    ensures WinsDiffer(Apply(w, Advance(id)).calls)
  {
    var v := Apply(w, Advance(id));
    AdvanceOk(start, w.state, w.calls[id]);
    forall i, j | i in v.calls && j in v.calls && i != j && Won(v.calls[i]) && Won(v.calls[j])
      ensures v.calls[i].target != v.calls[j].target
    {
      assert Won(w.calls[i]) || Won(w.calls[j]);
      assert CallOk(start, w.state, w.calls[i]) && CallOk(start, w.state, w.calls[j]);
    }
  }

  lemma StaysExplained(start: Value, w: World, id: nat)
    requires Inv(start, w) && id in w.calls
    ensures var v := Apply(w, Advance(id)); Explained(start, v.state, v.calls)
  {
    var v := Apply(w, Advance(id));
    AdvanceOk(start, w.state, w.calls[id]);
    if w.state != v.state {
      assert Won(v.calls[id]) && v.calls[id].target == v.state;
    } else if v.state != start {
      var i :| i in w.calls && Won(w.calls[i]) && w.calls[i].target == w.state;
      assert i in v.calls && Won(v.calls[i]) && v.calls[i].target == v.state;
    }
  }

  lemma {:induction false} RunKeepsInv(start: Value, steps: seq<Step>)
    ensures Inv(start, Run(start, steps))
  {
    if steps == [] {
    } else {
      RunKeepsInv(start, steps[..|steps| - 1]);
      StepKeepsInv(start, Run(start, steps[..|steps| - 1]), steps[|steps| - 1]);
    }
  }

  // -------------------------------------------------------------------------
  // Main results
  // -------------------------------------------------------------------------

  /** The state never moves back. */
  lemma {:induction false} StateNeverDecreases(start: Value, steps: seq<Step>, k: nat)
    requires k <= |steps|
    ensures Run(start, steps[..k]).state <= Run(start, steps).state
    decreases |steps|
  {
    if k == |steps| {
      assert steps[..k] == steps;
    } else {
      var before := steps[..|steps| - 1];
      StateNeverDecreases(start, before, k);
      assert before[..k] == steps[..k];
      RunKeepsInv(start, before);
      StepKeepsInv(start, Run(start, before), steps[|steps| - 1]);
    }
  }

  /** Each value is reported as reached at most once, so whatever follows a
      change to it happens at most once. */
  lemma OneWinnerPerValue(start: Value, steps: seq<Step>, i: nat, j: nat)
    requires i in Run(start, steps).calls && j in Run(start, steps).calls
    requires var calls := Run(start, steps).calls;
             Won(calls[i]) && Won(calls[j]) && calls[i].target == calls[j].target
    ensures i == j
  {
    RunKeepsInv(start, steps);
  }

  /** No call exchanges more than three times, and one that is still trying has
      been overtaken by a larger value each time. */
  lemma AtMostThreeAttempts(start: Value, steps: seq<Step>, id: nat)
    requires id in Run(start, steps).calls
    ensures var c := Run(start, steps).calls[id];
            c.attempts <= 3 && (c.phase.Trying? ==> c.attempts <= c.phase.seen < c.target)
  {
    RunKeepsInv(start, steps);
  }

  /** Once all calls have returned the state is the largest value asked for, or
      where it started if that is larger. */
  lemma SettlesAtMaximum(start: Value, steps: seq<Step>)
    requires forall id | id in Run(start, steps).calls :: Run(start, steps).calls[id].phase.Done?
    ensures var w := Run(start, steps);
            start <= w.state && (forall id | id in w.calls :: w.calls[id].target <= w.state)
            && (w.state == start || exists id | id in w.calls :: w.calls[id].target == w.state)
  {
    RunKeepsInv(start, steps);
    var w := Run(start, steps);
    forall id | id in w.calls
      ensures w.calls[id].target <= w.state
    {
      assert CallOk(start, w.state, w.calls[id]);
    }
  }
}

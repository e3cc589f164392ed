/** Room ownership: nodes racing single bus operations to find or claim a room's owner. */
module Routing {

  type Node = string
  type Room = string
  type Registry = map<Room, Node>

  datatype Answer = Local | Remote(owner: Node)

  const TURNS := 8

  /** Where a call stands; each constructor but Done waits on one bus operation. */
  datatype Phase =
    | Read                      // HGET
    | Check(owner: Node)        // GET of the owner's heartbeat key
    | Claim                     // HSETNX
    | Reread                    // HGET after the last turn
    | Recheck(seen: Node)       // GET after the last turn
    | Done(answer: Answer, forced: bool)

  /** `ops` counts the bus operations so far; `forced` marks the last-resort Local. */
  datatype Call = Call(node: Node, room: Room, turn: nat, ops: nat, phase: Phase)

  datatype State = State(registry: Registry, alive: set<Node>, calls: map<nat, Call>)

  datatype Step =
    | Start(id: nat, node: Node, room: Room)
    | Advance(id: nat)
    | Beat(node: Node)          // a heartbeat key is set
    | Expire(node: Node)        // a heartbeat key runs out

  // -------------------------------------------------------------------------
  // The reference: one atomic get-or-claim
  // -------------------------------------------------------------------------

  function Claimed(registry: Registry, room: Room, node: Node): Registry {
    if room in registry then registry else registry[room := node]
  }

  function AnswerFor(registry: Registry, room: Room, node: Node): Answer
    requires room in registry
  {
    if registry[room] == node then Local else Remote(registry[room])
  }

  function GetOrClaim(registry: Registry, room: Room, node: Node): (Registry, Answer) {
    var after := Claimed(registry, room, node);
    (after, AnswerFor(after, room, node))
  }

  // -------------------------------------------------------------------------
  // The machine
  // -------------------------------------------------------------------------

  function NextPhase(registry: Registry, alive: set<Node>, c: Call): Phase {
    match c.phase
    case Read =>
      if c.room !in registry then Claim
      else if registry[c.room] == c.node then Done(Local, false)
      else Check(registry[c.room])
    case Check(owner) => if owner in alive then Done(Remote(owner), false) else Claim
    case Claim =>
      if c.room !in registry then Done(Local, false)
      else if c.turn + 1 < TURNS then Read
      else Reread
    case Reread =>
      if c.room !in registry then Done(Local, true)
      else if registry[c.room] == c.node then Done(Local, false)
      else Recheck(registry[c.room])
    case Recheck(owner) => if owner in alive then Done(Remote(owner), false) else Done(Local, true)
    case Done(_, _) => c.phase
  }

  function NextCall(registry: Registry, alive: set<Node>, c: Call): Call {
    if c.phase.Done? then c
    else c.(phase := NextPhase(registry, alive, c),
            turn := if c.phase.Claim? then c.turn + 1 else c.turn,
            ops := c.ops + 1)
  }

  /** Only HSETNX writes the registry. */
  function NextRegistry(registry: Registry, c: Call): Registry {
    if c.phase.Claim? then Claimed(registry, c.room, c.node) else registry
  }

  function Apply(s: State, step: Step): State {
    match step
    case Start(id, node, room) =>
      if id in s.calls then s else s.(calls := s.calls[id := Call(node, room, 0, 0, Read)])
    case Advance(id) =>
      if id !in s.calls then s
      else
        var c := s.calls[id];
        s.(registry := NextRegistry(s.registry, c),
           calls := s.calls[id := NextCall(s.registry, s.alive, c)])
    case Beat(node) => s.(alive := s.alive + {node})
    case Expire(node) => s.(alive := s.alive - {node})
  }

  function Run(start: Registry, steps: seq<Step>): State {
    if steps == [] then State(start, {}, map[])
    else Apply(Run(start, steps[..|steps| - 1]), steps[|steps| - 1])
  }

  /** Every recorded owner has its heartbeat key. */
  predicate LiveOwners(registry: Registry, alive: set<Node>) {
    forall r | r in registry :: registry[r] in alive
  }

  /** Owners stay alive wherever a call is about to take an operation. */
  predicate LiveRun(start: Registry, steps: seq<Step>) {
    forall k | 0 <= k < |steps| && steps[k].Advance? ::
      LiveOwners(Run(start, steps[..k]).registry, Run(start, steps[..k]).alive)
  }

  // -------------------------------------------------------------------------
  // Invariants
  // -------------------------------------------------------------------------

  /** Holds in every run, whatever the heartbeats do. */
  predicate CallOk(registry: Registry, c: Call) {
    match c.phase
    case Read => c.turn < TURNS && (c.turn == 0 || c.room in registry)
    case Check(owner) => c.turn < TURNS && c.room in registry && registry[c.room] == owner != c.node
    case Claim => c.turn < TURNS && (c.turn == 0 || c.room in registry)
    case Reread => c.turn == TURNS && c.room in registry
    case Recheck(owner) => c.turn == TURNS && c.room in registry && registry[c.room] == owner != c.node
    case Done(answer, forced) =>
      c.room in registry
      && (forced ==> answer == Local && c.turn == TURNS)
      && (!forced ==> answer == AnswerFor(registry, c.room, c.node))
  }

  predicate AllOk(registry: Registry, calls: map<nat, Call>) {
    forall id | id in calls :: CallOk(registry, calls[id])
  }

  /** Holds while recorded owners are alive: at most two turns, four operations. */
  predicate Quick(registry: Registry, c: Call) {
    match c.phase
    case Read => (c.turn == 0 && c.ops == 0) || (c.turn == 1 && c.ops == 2 && c.room in registry)
    case Check(_) => c.turn <= 1 && c.ops <= 3
    case Claim => c.turn == 0 && c.ops == 1
    case Done(_, forced) => c.turn <= 2 && c.ops <= 4 && !forced
    case _ => false
  }

  predicate AllQuick(registry: Registry, calls: map<nat, Call>) {
    forall id | id in calls :: Quick(registry, calls[id])
  }

  /** Entries are added and never change. */
  predicate Extends(registry: Registry, later: Registry) {
    forall r | r in registry :: r in later && later[r] == registry[r]
  }

  lemma AdvanceKeepsOk(registry: Registry, alive: set<Node>, c: Call)
    requires CallOk(registry, c)
    ensures Extends(registry, NextRegistry(registry, c))
    ensures CallOk(NextRegistry(registry, c), NextCall(registry, alive, c))
  {
  }

  lemma AdvanceKeepsQuick(registry: Registry, alive: set<Node>, c: Call)
    requires CallOk(registry, c) && Quick(registry, c) && LiveOwners(registry, alive)
    ensures Quick(NextRegistry(registry, c), NextCall(registry, alive, c))
  {
  }

  lemma StepKeepsOk(s: State, step: Step)
    requires AllOk(s.registry, s.calls)
    ensures var t := Apply(s, step); AllOk(t.registry, t.calls) && Extends(s.registry, t.registry)
  {
    if step.Advance? && step.id in s.calls {
      AdvanceKeepsOk(s.registry, s.alive, s.calls[step.id]);
    }
  }

  lemma StepKeepsQuick(s: State, step: Step)
    requires AllOk(s.registry, s.calls) && AllQuick(s.registry, s.calls)
    requires step.Advance? ==> LiveOwners(s.registry, s.alive)
    ensures var t := Apply(s, step); AllQuick(t.registry, t.calls)
  {
    StepKeepsOk(s, step);
    if step.Advance? && step.id in s.calls {
      AdvanceKeepsQuick(s.registry, s.alive, s.calls[step.id]);
    }
  }

  lemma {:induction false} RunKeepsOk(start: Registry, steps: seq<Step>)
    ensures var s := Run(start, steps); AllOk(s.registry, s.calls) && Extends(start, s.registry)
  {
    if steps == [] {
    } else {
      RunKeepsOk(start, steps[..|steps| - 1]);
      StepKeepsOk(Run(start, steps[..|steps| - 1]), steps[|steps| - 1]);
    }
  }

  lemma {:induction false} RunKeepsQuick(start: Registry, steps: seq<Step>)
    requires LiveRun(start, steps)
    ensures var s := Run(start, steps); AllQuick(s.registry, s.calls)
  {
    if steps == [] {
    } else {
      var before := steps[..|steps| - 1];
      forall k | 0 <= k < |before| && before[k].Advance?
        ensures LiveOwners(Run(start, before[..k]).registry, Run(start, before[..k]).alive)
      {
        assert before[..k] == steps[..k] && steps[k].Advance?;
      }
      RunKeepsQuick(start, before);
      RunKeepsOk(start, before);
      assert steps[|steps| - 1].Advance? ==> steps[..|steps| - 1] == before;
      StepKeepsQuick(Run(start, before), steps[|steps| - 1]);
    }
  }

  // -------------------------------------------------------------------------
  // Main results
  // -------------------------------------------------------------------------

  /** In every run at all, a finished call that was not forced names the owner
      the registry records now. */
  lemma AnswersNameTheOwner(start: Registry, steps: seq<Step>, id: nat)
    requires id in Run(start, steps).calls
    requires var c := Run(start, steps).calls[id]; c.phase.Done? && !c.phase.forced
    ensures var s := Run(start, steps); var c := s.calls[id];
            c.room in s.registry && c.phase.answer == AnswerFor(s.registry, c.room, c.node)
  {
    RunKeepsOk(start, steps);
  }

  /** A forced answer is only ever given after eight turns, by the step that
      finds the recorded owner without its heartbeat key. */
  lemma ForcedOnlyByDeadOwner(start: Registry, steps: seq<Step>, step: Step, id: nat)
    requires var s := Run(start, steps); id in s.calls && !s.calls[id].phase.Done?
    requires var c := Apply(Run(start, steps), step).calls[id]; c.phase.Done? && c.phase.forced
    ensures var s := Run(start, steps); var c := s.calls[id];
            step == Advance(id) && c.turn == TURNS && c.room in s.registry
            && s.registry[c.room] !in s.alive && s.registry[c.room] != c.node
  {
    RunKeepsOk(start, steps);
    RunKeepsOk(start, steps + [step]);
    assert (steps + [step])[..|steps|] == steps;
  }

  /** The bus operations a whole call performs, as one atomic operation. */
  predicate ActsAtomically(s: State, t: State, id: nat)
    requires id in s.calls && id in t.calls
  {
    var c := s.calls[id];
    if t.calls[id].phase.Done? && !c.phase.Done?
    then (t.registry, t.calls[id].phase.answer) == GetOrClaim(s.registry, c.room, c.node)
    else t.registry == s.registry
  }

  /** While recorded owners are alive, the machine refines atomic get-or-claim:
      the step that finishes a call is that operation on the registry, and no
      other step changes the registry. */
  lemma LiveRunsAreAtomic(start: Registry, steps: seq<Step>, step: Step)
    requires LiveRun(start, steps + [step])
    ensures var s := Run(start, steps); var t := Apply(s, step);
            (step.Advance? && step.id in s.calls ==> ActsAtomically(s, t, step.id))
            && (!step.Advance? ==> t.registry == s.registry)
  {
    var all := steps + [step];
    assert all[..|steps|] == steps;
    var s := Run(start, steps);
    RunKeepsOk(start, steps);
    assert step.Advance? ==> LiveOwners(s.registry, s.alive) by {
      assert all[|steps|] == step;
    }
    RunKeepsQuick(start, all);
    RunKeepsOk(start, all);
  }

  /** Every call settles within two turns and four bus operations. */
  lemma SettlesInTwoTurns(start: Registry, steps: seq<Step>, id: nat)
    requires LiveRun(start, steps) && id in Run(start, steps).calls
    ensures var c := Run(start, steps).calls[id];
            c.ops <= 4 && c.turn <= 2 && (c.phase.Done? <== c.ops == 4) && (c.phase.Done? ==> !c.phase.forced)
  {
    RunKeepsQuick(start, steps);
  }

  /** The node a finished call points to. */
  function Named(c: Call): Node
    requires c.phase.Done?
  {
    match c.phase.answer
    case Local => c.node
    case Remote(owner) => owner
  }

  /** All nodes that finish a call on a room name the same owner. */
  lemma OneOwnerPerRoom(start: Registry, steps: seq<Step>, i: nat, j: nat)
    requires LiveRun(start, steps)
    requires i in Run(start, steps).calls && j in Run(start, steps).calls
    requires var s := Run(start, steps);
             s.calls[i].phase.Done? && s.calls[j].phase.Done? && s.calls[i].room == s.calls[j].room
    ensures var s := Run(start, steps); Named(s.calls[i]) == Named(s.calls[j])
  {
    RunKeepsQuick(start, steps);
    RunKeepsOk(start, steps);
  }

  // -------------------------------------------------------------------------
  // A dead owner
  // -------------------------------------------------------------------------

  /** A call on a room whose owner never has its heartbeat key: three operations a
      turn, and the last resort after eight turns. */
  predicate Slow(c: Call) {
    match c.phase
    case Read => c.ops == 3 * c.turn
    case Check(_) => c.ops == 3 * c.turn + 1
    case Claim => c.ops == 3 * c.turn + 2
    case Reread => c.turn == TURNS && c.ops == 3 * TURNS
    case Recheck(_) => c.turn == TURNS && c.ops == 3 * TURNS + 1
    case Done(answer, forced) => answer == Local && forced && c.ops == 3 * TURNS + 2
  }

  predicate AllSlow(calls: map<nat, Call>, room: Room, owner: Node) {
    forall id | id in calls && calls[id].room == room && calls[id].node != owner :: Slow(calls[id])
  }

  lemma AdvanceKeepsSlow(registry: Registry, alive: set<Node>, c: Call)
    requires CallOk(registry, c) && Slow(c) && c.room in registry
    requires registry[c.room] != c.node && registry[c.room] !in alive
    ensures Slow(NextCall(registry, alive, c))
  {
  }

  lemma StepKeepsSlow(s: State, step: Step, room: Room)
    requires AllOk(s.registry, s.calls) && room in s.registry && s.registry[room] !in s.alive
    requires AllSlow(s.calls, room, s.registry[room])
    ensures AllSlow(Apply(s, step).calls, room, s.registry[room])
  {
    if step.Advance? && step.id in s.calls {
      var c := s.calls[step.id];
      if c.room == room && c.node != s.registry[room] {
        AdvanceKeepsSlow(s.registry, s.alive, c);
      }
    }
  }

  lemma {:induction false} RunKeepsSlow(start: Registry, steps: seq<Step>, room: Room)
    requires room in start && Beat(start[room]) !in steps
    ensures var s := Run(start, steps);
            start[room] !in s.alive && room in s.registry && s.registry[room] == start[room]
            && AllSlow(s.calls, room, start[room])
  {
    if steps == [] {
    } else {
      var before := steps[..|steps| - 1];
      RunKeepsSlow(start, before, room);
      RunKeepsOk(start, before);
      RunKeepsOk(start, steps);
      assert steps[|steps| - 1] in steps;
      StepKeepsSlow(Run(start, before), steps[|steps| - 1], room);
    }
  }

  /** While the recorded owner of a room is dead, every call of another node that
      finishes is the last-resort Local after 26 bus operations, and the registry
      goes on naming the dead owner. */
  lemma DeadOwnerSplitsRoom(start: Registry, steps: seq<Step>, room: Room, id: nat)
    requires room in start && Beat(start[room]) !in steps
    requires id in Run(start, steps).calls
    requires var c := Run(start, steps).calls[id]; c.room == room && c.node != start[room]
    ensures var s := Run(start, steps);
            room in s.registry && s.registry[room] == start[room]
            && s.calls[id].ops <= 26
            && (s.calls[id].phase.Done? <==> s.calls[id].ops == 26)
            && (s.calls[id].phase.Done? ==> s.calls[id].phase == Done(Local, true))
  {
    RunKeepsSlow(start, steps, room);
    RunKeepsOk(start, steps);
    assert Slow(Run(start, steps).calls[id]) && CallOk(Run(start, steps).registry, Run(start, steps).calls[id]);
  }
}

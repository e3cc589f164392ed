/** Subscriber renegotiation: two flags, one async lock, any number of spawned
    negotiation tasks, requesters and arriving answers. Every await point of the
    source is a point where the adversary may switch to another task. */
module Negotiation {

  /** How far the holder of the `negotiating` lock has got. */
  datatype Holder =
    | Free
    | Locked(force: bool)        // lock acquired, flags not looked at yet
    | Proceeding                 // flags passed, offer not created yet
    | Offered                    // offer created, answer_pending not yet set
    | Marked                     // answer_pending set, offer not yet sent
    | Sending                    // offer handed to the client, lock still held

  /** `changes` counts subscription changes applied to the peer connection and
      `covered` those the latest offer contains. A change is followed by a
      requester that stores the flag (`changed` requesters have not yet) and then
      spawns a task (`stored` requesters have not yet). `plain` and `forced` count
      spawned tasks that have not got the lock. `unsent` is an offer marked but
      not sent, `atClient` counts offers sent and not answered, `answers` answers on
      their way back. `dropped` records that an attempt to offer failed while
      a change was uncovered and that none has succeeded since, `stuck` that an
      offer was lost or its answer failed. */
  datatype State = State(needs: bool, answerPending: bool, holder: Holder, plain: nat, forced: nat,
                         changed: nat, stored: nat, changes: nat, covered: nat,
                         unsent: bool, atClient: nat, answers: nat,
                         disconnected: bool, dropped: bool, stuck: bool)

  const INIT := State(false, false, Free, 0, 0, 0, 0, 0, 0, false, 0, 0, false, false, false)

  datatype Step =
    | Change             // add_track or remove_track on the peer connection
    | StoreFlag          // needs_negotiation := true
    | Spawn              // spawn a task with force = false
    | Acquire(force: bool)
    | Check              // the guarded block on the two flags
    | CreateOffer
    | OfferFails         // no peer connection, or creating the offer fails
    | Mark               // answer_pending := true
    | SendOffer
    | LoseOffer          // the client has no signal connection
    | Release            // the holder returns after sending
    | ClientAnswers
    | HandleAnswer
    | AnswerFails        // set_remote_description fails
    | Disconnect

  predicate Enabled(s: State, step: Step) {
    match step
    case Change => true
    case StoreFlag => s.changed > 0
    case Spawn => s.stored > 0
    case Acquire(force) => s.holder == Free && (if force then s.forced > 0 else s.plain > 0)
    case Check => s.holder.Locked?
    case CreateOffer => s.holder == Proceeding
    case OfferFails => s.holder == Proceeding
    case Mark => s.holder == Offered
    case SendOffer => s.holder == Marked
    case LoseOffer => s.holder == Marked
    case Release => s.holder == Sending
    case ClientAnswers => s.atClient > 0
    case HandleAnswer => s.answers > 0
    case AnswerFails => s.answers > 0
    case Disconnect => true
  }

  function Apply(s: State, step: Step): State
    requires Enabled(s, step)
  {
    match step
    case Change => s.(changes := s.changes + 1, changed := s.changed + 1)
    case StoreFlag => s.(needs := true, changed := s.changed - 1, stored := s.stored + 1)
    case Spawn => s.(stored := s.stored - 1, plain := s.plain + 1)
    case Acquire(force) =>
      if force then s.(holder := Locked(true), forced := s.forced - 1)
      else s.(holder := Locked(false), plain := s.plain - 1)
    case Check =>
      if s.disconnected then s.(holder := Free)
      else if s.answerPending then s.(holder := Free, needs := true)
      else if !s.holder.force && !s.needs then s.(holder := Free)
      else s.(holder := Proceeding, needs := false)
    case CreateOffer => s.(holder := Offered, covered := s.changes, dropped := false)
    case OfferFails => s.(holder := Free, dropped := s.dropped || s.changes > s.covered)
    case Mark => s.(holder := Marked, answerPending := true, unsent := true)
    case SendOffer => s.(holder := Sending, unsent := false, atClient := s.atClient + 1)
    case LoseOffer => s.(holder := Sending, unsent := false, stuck := true)
    case Release => s.(holder := Free)
    case ClientAnswers => s.(atClient := s.atClient - 1, answers := s.answers + 1)
    case HandleAnswer =>
      if s.needs then s.(answers := s.answers - 1, answerPending := false, needs := false, forced := s.forced + 1)
      else s.(answers := s.answers - 1, answerPending := false)
    case AnswerFails => s.(answers := s.answers - 1, stuck := true)
    case Disconnect => s.(disconnected := true)
  }

  /** `steps` can be taken in order from `s` and leads to `t`. */
  ghost predicate Leads(s: State, steps: seq<Step>, t: State)
    decreases |steps|
  {
    if steps == [] then s == t
    else Enabled(s, steps[0]) && Leads(Apply(s, steps[0]), steps[1..], t)
  }

  ghost predicate Reachable(s: State) {
    exists steps :: Leads(INIT, steps, s)
  }

  // -------------------------------------------------------------------------
  // Invariant
  // -------------------------------------------------------------------------

  function Outstanding(s: State): nat {
    (if s.unsent then 1 else 0) + s.atClient + s.answers
  }

  /** `answer_pending` is set exactly while an offer awaits its answer, or for ever
      once that answer can no longer come. */
  predicate OneOffer(s: State) {
    && Outstanding(s) <= 1
    && (s.answerPending <==> Outstanding(s) == 1 || s.stuck)
    && (s.stuck ==> Outstanding(s) == 0)
    && (s.unsent <==> s.holder == Marked)
    && (s.holder.Proceeding? || s.holder.Offered? ==> !s.answerPending)
  }

  /** A change the latest offer lacks is on its way to a later one. */
  predicate ChangeOwed(s: State) {
    s.changes > s.covered ==>
      s.changed > 0 || s.needs || s.forced > 0 || s.holder == Locked(true) || s.holder == Proceeding
  }

  /** A raised flag will be looked at again. */
  predicate FlagWatched(s: State) {
    s.needs ==>
      s.stored > 0 || s.plain > 0 || s.forced > 0 || s.answerPending || s.holder.Locked?
  }

  predicate Inv(s: State) {
    && OneOffer(s)
    && s.covered <= s.changes
    && (s.dropped ==> s.covered < s.changes)
    && (!s.dropped && !s.disconnected ==> ChangeOwed(s))
    && (!s.disconnected ==> FlagWatched(s))
  }

  lemma StepKeepsInv(s: State, step: Step)
    requires Inv(s) && Enabled(s, step)
    ensures Inv(Apply(s, step))
  {
    StepKeepsOneOffer(s, step);
    StepKeepsOwed(s, step);
    StepKeepsWatched(s, step);
  }

  lemma StepKeepsOneOffer(s: State, step: Step)
    requires OneOffer(s) && Enabled(s, step)
    ensures OneOffer(Apply(s, step))
  {
  }

  lemma StepKeepsOwed(s: State, step: Step)
    requires Inv(s) && Enabled(s, step)
    ensures var t := Apply(s, step);
            t.covered <= t.changes && (t.dropped ==> t.covered < t.changes)
            && (!t.dropped && !t.disconnected ==> ChangeOwed(t))
  {
  }

  lemma StepKeepsWatched(s: State, step: Step)
    requires Inv(s) && Enabled(s, step)
    ensures var t := Apply(s, step); !t.disconnected ==> FlagWatched(t)
  {
  }

  lemma {:induction false} RunKeepsInv(s: State, steps: seq<Step>, t: State)
    requires Inv(s) && Leads(s, steps, t)
    ensures Inv(t)
    decreases |steps|
  {
    if steps == [] {
    } else {
      StepKeepsInv(s, steps[0]);
      RunKeepsInv(Apply(s, steps[0]), steps[1..], t);
    }
  }

  lemma ReachableInv(s: State)
    requires Reachable(s)
    ensures Inv(s)
  {
    var steps :| Leads(INIT, steps, s);
    RunKeepsInv(INIT, steps, s);
  }

  // -------------------------------------------------------------------------
  // Main results
  // -------------------------------------------------------------------------

  /** No task, requester, offer or answer is under way. */
  predicate Settled(s: State) {
    && s.holder == Free && s.plain == 0 && s.forced == 0 && s.changed == 0 && s.stored == 0
    && Outstanding(s) == 0
  }

  /** Connected, no uncovered change was dropped and no offer or answer was lost. */
  predicate Healthy(s: State) {
    !s.disconnected && !s.dropped && !s.stuck
  }

  /** In every run, failures included, at most one offer awaits its answer. */
  lemma AtMostOneOffer(s: State)
    requires Reachable(s)
    ensures Outstanding(s) <= 1
  {
    ReachableInv(s);
  }

  /** In every run, a settled and connected state whose offers were all answered
      has offered every change so far exactly when no failed attempt to offer
      dropped one. */
  lemma NoChangeIsLostIff(s: State)
    requires Reachable(s) && Settled(s) && !s.disconnected && !s.stuck
    ensures s.covered == s.changes <==> !s.dropped
    ensures !s.needs
  {
    ReachableInv(s);
  }

  function ChangesIn(steps: seq<Step>): nat {
    if steps == [] then 0 else (if steps[0].Change? then 1 else 0) + ChangesIn(steps[1..])
  }

  /** A dropped change stays uncovered, whatever else happens, until another
      offer is created. */
  lemma {:induction false} DroppedUntilNextOffer(s: State, steps: seq<Step>, t: State)
    requires Inv(s) && s.dropped && Leads(s, steps, t) && CreateOffer !in steps
    ensures t.dropped && t.covered == s.covered < s.changes <= t.changes
    decreases |steps|
  {
    if steps == [] {
    } else {
      StepKeepsInv(s, steps[0]);
      DroppedStep(s, steps[0]);
      DroppedUntilNextOffer(Apply(s, steps[0]), steps[1..], t);
    }
  }

  lemma DroppedStep(s: State, step: Step)
    requires s.dropped && Enabled(s, step) && !step.CreateOffer?
    ensures var t := Apply(s, step); t.dropped && t.covered == s.covered && s.changes <= t.changes
  {
    match step
    case Check =>
    case HandleAnswer =>
    case Acquire(_) =>
    case _ =>
  }

  /** Once an offer is lost or its answer fails to apply, no later offer is ever
      made, so every change is covered exactly when all were by then and none
      came after. */
  lemma {:induction false} StuckForEver(s: State, steps: seq<Step>, t: State)
    requires Inv(s) && s.stuck && Leads(s, steps, t)
    ensures t.stuck && t.covered == s.covered && t.changes == s.changes + ChangesIn(steps)
    ensures t.covered == t.changes <==> s.covered == s.changes && ChangesIn(steps) == 0
    decreases |steps|
  {
    if steps == [] {
    } else {
      StepKeepsInv(s, steps[0]);
      StuckStep(s, steps[0]);
      StuckForEver(Apply(s, steps[0]), steps[1..], t);
    }
  }

  lemma StuckStep(s: State, step: Step)
    requires OneOffer(s) && s.stuck && Enabled(s, step)
    ensures var t := Apply(s, step);
            t.stuck && t.covered == s.covered && t.changes == s.changes + (if step.Change? then 1 else 0)
  {
  }

  lemma {:induction false} LeadsOn(s: State, steps: seq<Step>, t: State, step: Step)
    requires Leads(s, steps, t) && Enabled(t, step)
    ensures Leads(s, steps + [step], Apply(t, step))
    decreases |steps|
  {
    if steps == [] {
      assert [step][1..] == [];
    } else {
      LeadsOn(Apply(s, steps[0]), steps[1..], t, step);
      assert (steps + [step])[1..] == steps[1..] + [step];
    }
  }

  lemma Take(s: State, step: Step) returns (t: State)
    requires Reachable(s) && Enabled(s, step)
    ensures t == Apply(s, step) && Reachable(t)
  {
    t := Apply(s, step);
    var steps :| Leads(INIT, steps, s);
    LeadsOn(INIT, steps, s, step);
  }

  /** Both failures do happen: a failed attempt to offer can leave a settled,
      connected state with a change no offer contains. */
  lemma FailedOfferLosesChange() returns (s: State)
    ensures Reachable(s) && Settled(s) && !s.disconnected && !s.stuck && s.covered < s.changes
  {
    assert Leads(INIT, [], INIT);
    s := RequestOnce(INIT);
    s := Take(s, Acquire(false));
    s := Take(s, Check);
    s := Take(s, OfferFails);
  }

  lemma RequestOnce(s: State) returns (t: State)
    requires Reachable(s)
    ensures Reachable(t)
    ensures t == s.(needs := true, plain := s.plain + 1, changes := s.changes + 1)
  {
    t := Take(s, Change);
    assert t == s.(changed := s.changed + 1, changes := s.changes + 1);
    t := Take(t, StoreFlag);
    assert t == s.(needs := true, stored := s.stored + 1, changes := s.changes + 1);
    t := Take(t, Spawn);
  }

  lemma OfferOnce(s: State) returns (t: State)
    requires Reachable(s) && s.holder == Free && s.plain > 0 && s.needs && !s.answerPending && !s.disconnected && !s.unsent
    ensures Reachable(t)
    ensures t == s.(needs := false, plain := s.plain - 1, covered := s.changes, dropped := false,
                    answerPending := true, atClient := s.atClient + 1)
  {
    t := Take(s, Acquire(false));
    t := Take(t, Check);
    t := Take(t, CreateOffer);
    t := Take(t, Mark);
    t := Take(t, SendOffer);
    t := Take(t, Release);
  }

  /** So can a failed answer, by the change that follows it. */
  lemma FailedAnswerLosesChange() returns (s: State)
    ensures Reachable(s) && Settled(s) && !s.disconnected && !s.dropped && s.covered < s.changes
  {
    assert Leads(INIT, [], INIT);
    s := RequestOnce(INIT);
    s := OfferOnce(s);
    s := Take(s, ClientAnswers);
    s := Take(s, AnswerFails);
    s := RequestOnce(s);
    s := Take(s, Acquire(false));
    s := Take(s, Check);
  }

  // -------------------------------------------------------------------------
  // Settling
  // -------------------------------------------------------------------------

  /** Steps of the machinery itself, as opposed to new changes and disconnects. */
  predicate Internal(step: Step) {
    !step.Change? && !step.Disconnect?
  }

  predicate Succeeds(step: Step) {
    !step.OfferFails? && !step.LoseOffer? && !step.AnswerFails?
  }

  function HolderWork(h: Holder): nat {
    match h
    case Free => 0
    case Locked(_) => 10
    case Proceeding => 9
    case Offered => 8
    case Marked => 7
    case Sending => 1
  }

  /** A bound on the internal steps left. */
  function Work(s: State): nat {
    HolderWork(s.holder) + 11 * (s.plain + s.forced) + 22 * s.changed + 12 * s.stored
    + (if s.needs then 9 else 0) + 5 * s.atClient + 4 * s.answers
  }

  lemma FlagStepsUseWork(s: State, step: Step)
    requires Enabled(s, step) && (step.StoreFlag? || step.Check? || step.HandleAnswer?)
    ensures Work(Apply(s, step)) < Work(s)
  {
  }

  lemma AcquireUsesWork(s: State, force: bool)
    requires Enabled(s, Acquire(force))
    ensures Work(Apply(s, Acquire(force))) < Work(s)
  {
  }

  lemma LockStepsUseWork(s: State, step: Step)
    requires Enabled(s, step) && (step.CreateOffer? || step.OfferFails? || step.Mark? || step.Release?)
    ensures Work(Apply(s, step)) < Work(s)
  {
  }

  lemma InternalStepsUseWork(s: State, step: Step)
    requires Enabled(s, step) && Internal(step)
    ensures Work(Apply(s, step)) < Work(s)
  {
    if step.StoreFlag? || step.Check? || step.HandleAnswer? {
      FlagStepsUseWork(s, step);
    } else if step.Acquire? {
      AcquireUsesWork(s, step.force);
    } else if step.CreateOffer? || step.OfferFails? || step.Mark? || step.Release? {
      LockStepsUseWork(s, step);
    }
  }

  /** Some successful internal step is possible until everything is settled. */
  lemma NoDeadlock(s: State) returns (step: Step)
    requires !Settled(s) && OneOffer(s)
    ensures Internal(step) && Succeeds(step) && Enabled(s, step)
  {
    step := if s.changed > 0 then StoreFlag
            else if s.stored > 0 then Spawn
            else if s.answers > 0 then HandleAnswer
            else if s.atClient > 0 then ClientAnswers
            else match s.holder
                 case Free => Acquire(s.forced > 0)
                 case Locked(_) => Check
                 case Proceeding => CreateOffer
                 case Offered => Mark
                 case Marked => SendOffer
                 case Sending => Release;
  }

  lemma HealthStep(s: State, step: Step)
    requires Healthy(s) && Enabled(s, step) && Internal(step) && Succeeds(step)
    ensures Healthy(Apply(s, step)) && Apply(s, step).changes == s.changes
  {
  }

  lemma {:induction false} HealthKept(s: State, steps: seq<Step>, t: State)
    requires Inv(s) && Healthy(s) && Leads(s, steps, t)
    requires forall i :: 0 <= i < |steps| ==> Internal(steps[i]) && Succeeds(steps[i])
    ensures Inv(t) && Healthy(t) && t.changes == s.changes && |steps| + Work(t) <= Work(s)
    decreases |steps|
  {
    if steps == [] {
    } else {
      var u := Apply(s, steps[0]);
      StepKeepsInv(s, steps[0]);
      HealthStep(s, steps[0]);
      InternalStepsUseWork(s, steps[0]);
      HealthKept(u, steps[1..], t);
    }
  }

  /** From any reachable healthy state, once changes stop, every way of running
      the machinery with a client that answers ends after at most `Work` steps,
      and where no further step is possible the last offer covers every change. */
  lemma EventuallyCovered(s: State, steps: seq<Step>, t: State)
    requires Reachable(s) && Healthy(s) && Leads(s, steps, t)
    requires forall i :: 0 <= i < |steps| ==> Internal(steps[i]) && Succeeds(steps[i])
    ensures |steps| <= Work(s)
    ensures (forall step :: Internal(step) && Succeeds(step) ==> !Enabled(t, step)) ==>
              Settled(t) && t.covered == t.changes == s.changes
  {
    ReachableInv(s);
    HealthKept(s, steps, t);
    if !Settled(t) {
      var step := NoDeadlock(t);
    }
  }
}

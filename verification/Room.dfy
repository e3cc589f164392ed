/** Who is in a room, and when it may close. */
module Room {
  import opened Common

  /** Dependent participants (egress, agents) do not keep a room open. */
  datatype Participant = Participant(sid: string, identity: string, dependent: bool)

  /** Limits and timeouts in seconds; 0 turns each off. Times are milliseconds. */
  datatype Config = Config(maxParticipants: nat, emptyTimeout: nat, departureTimeout: nat, created: int)

  datatype Contents = Contents(
    participants: map<string, Participant>, emptySince: Option<int>, everJoined: bool, closed: bool)

  // -------------------------------------------------------------------------
  // Operations on the contents
  // -------------------------------------------------------------------------

  function Reals(participants: map<string, Participant>): set<string> {
    set sid | sid in participants && !participants[sid].dependent
  }

  predicate IdentityTaken(participants: map<string, Participant>, identity: string) {
    exists sid | sid in participants :: participants[sid].identity == identity
  }

  predicate Full(cfg: Config, participants: map<string, Participant>) {
    cfg.maxParticipants > 0 && |Reals(participants)| >= cfg.maxParticipants
  }

  predicate Admitted(cfg: Config, c: Contents, p: Participant) {
    !c.closed && (p.dependent || !Full(cfg, c.participants)) && !IdentityTaken(c.participants, p.identity)
  }

  function Joined(cfg: Config, c: Contents, p: Participant): Contents {
    if !Admitted(cfg, c, p) then c
    else
      c.(participants := c.participants[p.sid := p],
         everJoined := c.everJoined || !p.dependent,
         emptySince := if p.dependent then c.emptySince else None)
  }

  function Removed(c: Contents, sid: string, now: int): Contents {
    var rest := c.participants - {sid};
    c.(participants := rest,
       emptySince := if sid in c.participants && rest == map[] then Some(now) else c.emptySince)
  }

  function MarkedLeft(c: Contents, now: int): Contents {
    if Reals(c.participants) == {} && c.emptySince.None? then c.(emptySince := Some(now)) else c
  }

  /** Whether the room should close at a time. */
  predicate Expired(cfg: Config, c: Contents, now: int) {
    var timeout := if c.everJoined then cfg.departureTimeout else cfg.emptyTimeout;
    !c.closed && Reals(c.participants) == {} && timeout > 0
    && (c.everJoined ==> c.emptySince.Some?)
    && now - (if c.everJoined then c.emptySince.value else cfg.created) >= timeout * 1000
  }

  // -------------------------------------------------------------------------
  // Invariant
  // -------------------------------------------------------------------------

  predicate UniqueIdentities(participants: map<string, Participant>) {
    forall a, b | a in participants && b in participants && participants[a].identity == participants[b].identity ::
      a == b
  }

  predicate Keyed(participants: map<string, Participant>) {
    forall sid | sid in participants :: participants[sid].sid == sid
  }

  predicate WithinLimit(cfg: Config, participants: map<string, Participant>) {
    cfg.maxParticipants > 0 ==> |Reals(participants)| <= cfg.maxParticipants
  }

  /** The empty mark is off while real participants are present, and on when
      one has been, none is and no departure is still under way. */
  predicate MarkOk(c: Contents, leaving: nat) {
    (Reals(c.participants) != {} ==> c.emptySince.None? && c.everJoined)
    && (c.everJoined && Reals(c.participants) == {} && leaving == 0 ==> c.emptySince.Some?)
  }

  predicate Inv(cfg: Config, c: Contents, leaving: nat) {
    Keyed(c.participants) && UniqueIdentities(c.participants) && WithinLimit(cfg, c.participants)
    && MarkOk(c, leaving)
  }

  lemma RealsAfterJoin(participants: map<string, Participant>, p: Participant)
    requires p.sid !in participants
    ensures var after := Reals(participants[p.sid := p]);
            if p.dependent then after == Reals(participants)
            else after == Reals(participants) + {p.sid} && |after| == |Reals(participants)| + 1
  {
    var after := Reals(participants[p.sid := p]);
    if p.dependent {
      assert after == Reals(participants);
    } else {
      assert after == Reals(participants) + {p.sid};
    }
  }

  lemma NewIdentity(participants: map<string, Participant>, p: Participant)
    requires UniqueIdentities(participants) && !IdentityTaken(participants, p.identity)
    ensures UniqueIdentities(participants[p.sid := p])
  {
  }

  lemma JoinKeeps(cfg: Config, c: Contents, p: Participant, leaving: nat)
    requires Inv(cfg, c, leaving) && p.sid !in c.participants
    ensures Inv(cfg, Joined(cfg, c, p), leaving)
  {
    if Admitted(cfg, c, p) {
      RealsAfterJoin(c.participants, p);
      NewIdentity(c.participants, p);
    }
  }

  lemma RealsAfterLeave(participants: map<string, Participant>, sid: string)
    ensures var after := Reals(participants - {sid});
            after == Reals(participants) - {sid} && |after| <= |Reals(participants)|
  {
    var after := Reals(participants - {sid});
    assert after == Reals(participants) - {sid};
    if sid !in Reals(participants) {
      assert after == Reals(participants);
    }
  }

  lemma RemoveKeeps(cfg: Config, c: Contents, sid: string, leaving: nat, now: int)
    requires Inv(cfg, c, leaving)
    ensures Inv(cfg, Removed(c, sid, now), leaving + 1)
  {
    RealsAfterLeave(c.participants, sid);
  }

  // -------------------------------------------------------------------------
  // The room object
  // -------------------------------------------------------------------------

  class Room {
    const cfg: Config
    var participants: map<string, Participant>
    var emptySince: Option<int>
    var everJoined: bool
    var closed: bool

    function State(): Contents
      reads this
    {
      Contents(participants, emptySince, everJoined, closed)
    }

    constructor (cfg: Config)
      ensures this.cfg == cfg && State() == Contents(map[], None, false, false)
    {
      this.cfg := cfg;
      participants, emptySince, everJoined, closed := map[], None, false, false;
    }

    method IsFull() returns (full: bool)
      ensures full == Full(cfg, participants)
    {
      if cfg.maxParticipants == 0 {
        return false;
      }
      var count := |set sid | sid in participants && !participants[sid].dependent|;
      full := count >= cfg.maxParticipants;
    }

    method HasNonDependent() returns (some: bool)
      ensures some == (Reals(participants) != {})
    {
      some := exists sid | sid in participants :: !participants[sid].dependent;
      if some {
        var sid :| sid in participants && !participants[sid].dependent;
        assert sid in Reals(participants);
      }
    }

    method Join(p: Participant) returns (ok: bool)
      modifies this
      ensures ok == Admitted(cfg, old(State()), p)
      ensures State() == Joined(cfg, old(State()), p)
    {
      if closed {
        return false;
      }
      var full := IsFull();
      if !p.dependent && full {
        return false;
      }
      if exists sid | sid in participants :: participants[sid].identity == p.identity {
        return false;
      }
      participants := participants[p.sid := p];
      if !p.dependent {
        everJoined := true;
        emptySince := None;
      }
      return true;
    }

    method RemoveParticipant(sid: string, now: int) returns (removed: Option<Participant>)
      modifies this
      ensures removed == if sid in old(participants) then Some(old(participants)[sid]) else None
      ensures State() == Removed(old(State()), sid, now)
    {
      if sid !in participants {
        return None;
      }
      removed := Some(participants[sid]);
      participants := participants - {sid};
      if participants == map[] {
        emptySince := Some(now);
      }
    }

    method OnParticipantLeft(now: int)
      modifies this
      ensures State() == MarkedLeft(old(State()), now)
    {
      var some := HasNonDependent();
      if !some && emptySince.None? {
        emptySince := Some(now);
      }
    }

    method ShouldClose(now: int) returns (close: bool)
      ensures close == Expired(cfg, State(), now)
    {
      var some := HasNonDependent();
      if closed || some {
        return false;
      }
      var timeout := if everJoined then cfg.departureTimeout else cfg.emptyTimeout;
      if timeout == 0 {
        return false;
      }
      if everJoined && emptySince.None? {
        return false;
      }
      var elapsed := now - (if everJoined then emptySince.value else cfg.created);
      close := elapsed >= timeout * 1000;
    }
  }

  // -------------------------------------------------------------------------
  // Runs
  // -------------------------------------------------------------------------

  /** A departure removes the participant and, after an interruption, has the
      room look whether it is empty. */
  datatype Step = Enter(p: Participant) | Remove(sid: string, now: int) | Notice(now: int) | Shut

  function Apply(cfg: Config, c: Contents, step: Step): Contents {
    match step
    case Enter(p) => Joined(cfg, c, p)
    case Remove(sid, now) => Removed(c, sid, now)
    case Notice(now) => MarkedLeft(c, now)
    case Shut => c.(closed := true)
  }

  function Run(cfg: Config, steps: seq<Step>): Contents {
    if steps == [] then Contents(map[], None, false, false)
    else Apply(cfg, Run(cfg, steps[..|steps| - 1]), steps[|steps| - 1])
  }

  /** Departures between removal and notice. */
  function Leaving(steps: seq<Step>): nat {
    if steps == [] then 0
    else
      var before := Leaving(steps[..|steps| - 1]);
      match steps[|steps| - 1]
      case Remove(_, _) => before + 1
      case Notice(_) => if before > 0 then before - 1 else 0
      case _ => before
  }

  /** Session ids are fresh. */
  predicate Proper(cfg: Config, steps: seq<Step>) {
    forall k | 0 <= k < |steps| && steps[k].Enter? :: steps[k].p.sid !in Run(cfg, steps[..k]).participants
  }

  lemma StepKeepsInv(cfg: Config, c: Contents, step: Step, leaving: nat, after: nat)
    requires Inv(cfg, c, leaving) && (step.Enter? ==> step.p.sid !in c.participants)
    requires after == match step
                      case Remove(_, _) => leaving + 1
                      case Notice(_) => if leaving > 0 then leaving - 1 else 0
                      case _ => leaving
    ensures Inv(cfg, Apply(cfg, c, step), after)
  {
    match step
    case Enter(p) => JoinKeeps(cfg, c, p, leaving);
    case Remove(sid, now) => RemoveKeeps(cfg, c, sid, leaving, now);
    case Notice(_) =>
    case Shut =>
  }

  lemma {:induction false} RunKeepsInv(cfg: Config, steps: seq<Step>)
    requires Proper(cfg, steps)
    ensures Inv(cfg, Run(cfg, steps), Leaving(steps))
  {
    if steps == [] {
    } else {
      var n := |steps| - 1;
      var before := steps[..n];
      assert forall k | 0 <= k < n :: before[k] == steps[k] && before[..k] == steps[..k];
      RunKeepsInv(cfg, before);
      StepKeepsInv(cfg, Run(cfg, before), steps[n], Leaving(before), Leaving(steps));
    }
  }

  /** In every run identities are unique, real participants stay within the
      limit, and the empty mark is right. */
  lemma RoomStaysConsistent(cfg: Config, steps: seq<Step>)
    requires Proper(cfg, steps)
    ensures var c := Run(cfg, steps);
            UniqueIdentities(c.participants) && WithinLimit(cfg, c.participants) && MarkOk(c, Leaving(steps))
  {
    RunKeepsInv(cfg, steps);
  }

  // -------------------------------------------------------------------------
  // The empty mark, exactly
  // -------------------------------------------------------------------------

  /** Step `k` lets a real participant in. */
  predicate LetsIn(cfg: Config, steps: seq<Step>, k: nat)
    requires k < |steps|
  {
    steps[k].Enter? && !steps[k].p.dependent && Admitted(cfg, Run(cfg, steps[..k]), steps[k].p)
  }

  /** Step `k` removes the last participant of either kind. */
  predicate Empties(cfg: Config, steps: seq<Step>, k: nat)
    requires k < |steps|
  {
    var ps := Run(cfg, steps[..k]).participants;
    steps[k].Remove? && steps[k].sid in ps && ps - {steps[k].sid} == map[]
  }

  /** Step `k` is a notice that finds no real participant. */
  predicate Notices(cfg: Config, steps: seq<Step>, k: nat)
    requires k < |steps|
  {
    steps[k].Notice? && Reals(Run(cfg, steps[..k]).participants) == {}
  }

  /** A real participant was let in after step `j` and before step `k`. */
  predicate LetInBetween(cfg: Config, steps: seq<Step>, j: nat, k: nat)
    requires k <= |steps|
  {
    exists i | j < i < k :: LetsIn(cfg, steps, i)
  }

  /** Step `k` is the one whose time the mark holds: a removal that empties the
      room with no such removal later; else the first notice since real
      participants were last let in. No real participant came in later. */
  predicate SetsMark(cfg: Config, steps: seq<Step>, k: nat)
    requires k < |steps|
  {
    (forall j | k < j < |steps| :: !Empties(cfg, steps, j) && !LetsIn(cfg, steps, j))
    && (Empties(cfg, steps, k)
        || (Notices(cfg, steps, k)
            && forall j | 0 <= j < k && (Empties(cfg, steps, j) || Notices(cfg, steps, j)) ::
                 LetInBetween(cfg, steps, j, k)))
  }

  /** Without a mark, whatever could have set it was followed by a real entry. */
  predicate Unmarked(cfg: Config, steps: seq<Step>) {
    forall j | 0 <= j < |steps| && (Empties(cfg, steps, j) || Notices(cfg, steps, j)) ::
      LetInBetween(cfg, steps, j, |steps|)
  }

  lemma SameEvents(cfg: Config, steps: seq<Step>, j: nat)
    requires steps != [] && j < |steps| - 1
    ensures var before := steps[..|steps| - 1];
            LetsIn(cfg, before, j) == LetsIn(cfg, steps, j)
            && Empties(cfg, before, j) == Empties(cfg, steps, j)
            && Notices(cfg, before, j) == Notices(cfg, steps, j)
  {
    var before := steps[..|steps| - 1];
    assert before[..j] == steps[..j] && before[j] == steps[j];
  }

  lemma SameBetween(cfg: Config, steps: seq<Step>, j: nat, k: nat)
    requires steps != [] && k <= |steps| - 1
    ensures LetInBetween(cfg, steps[..|steps| - 1], j, k) == LetInBetween(cfg, steps, j, k)
  {
    var before := steps[..|steps| - 1];
    forall i | j < i < k
      ensures LetsIn(cfg, before, i) == LetsIn(cfg, steps, i)
    {
      SameEvents(cfg, steps, i);
    }
  }

  /** The mark after a step that neither lets a real participant in nor sets it. */
  lemma KeepsMark(cfg: Config, steps: seq<Step>, k: nat)
    requires steps != [] && k < |steps| - 1 && SetsMark(cfg, steps[..|steps| - 1], k)
    requires !LetsIn(cfg, steps, |steps| - 1) && !Empties(cfg, steps, |steps| - 1)
    ensures SetsMark(cfg, steps, k)
  {
    var before := steps[..|steps| - 1];
    SameEvents(cfg, steps, k);
    forall j | k < j < |steps|
      ensures !Empties(cfg, steps, j) && !LetsIn(cfg, steps, j)
    {
      if j < |before| {
        SameEvents(cfg, steps, j);
      }
    }
    forall j | 0 <= j < k && (Empties(cfg, steps, j) || Notices(cfg, steps, j)) && !Empties(cfg, steps, k)
      ensures LetInBetween(cfg, steps, j, k)
    {
      SameEvents(cfg, steps, j);
      SameBetween(cfg, steps, j, k);
    }
  }

  /** Some step set the mark at time `t`. */
  predicate MarkedAt(cfg: Config, steps: seq<Step>, t: int) {
    exists k | 0 <= k < |steps| :: SetsMark(cfg, steps, k) && steps[k].now == t
  }

  lemma StaysMarked(cfg: Config, steps: seq<Step>, t: int)
    requires steps != [] && MarkedAt(cfg, steps[..|steps| - 1], t)
    requires !LetsIn(cfg, steps, |steps| - 1) && !Empties(cfg, steps, |steps| - 1)
    ensures MarkedAt(cfg, steps, t)
  {
    var before := steps[..|steps| - 1];
    var k :| 0 <= k < |before| && SetsMark(cfg, before, k) && before[k].now == t;
    KeepsMark(cfg, steps, k);
  }

  lemma NoticeSetsMark(cfg: Config, steps: seq<Step>)
    requires steps != [] && Unmarked(cfg, steps[..|steps| - 1]) && Notices(cfg, steps, |steps| - 1)
    ensures SetsMark(cfg, steps, |steps| - 1)
  {
    var n := |steps| - 1;
    forall j | 0 <= j < n && (Empties(cfg, steps, j) || Notices(cfg, steps, j))
      ensures LetInBetween(cfg, steps, j, n)
    {
      SameEvents(cfg, steps, j);
      SameBetween(cfg, steps, j, n);
    }
  }

  lemma StaysUnmarked(cfg: Config, steps: seq<Step>)
    requires steps != []
    requires var n := |steps| - 1;
             LetsIn(cfg, steps, n)
             || (Unmarked(cfg, steps[..n]) && !Empties(cfg, steps, n) && !Notices(cfg, steps, n))
    ensures Unmarked(cfg, steps)
  {
    var n := |steps| - 1;
    forall j | 0 <= j < |steps| && (Empties(cfg, steps, j) || Notices(cfg, steps, j))
      ensures LetInBetween(cfg, steps, j, |steps|)
    {
      if LetsIn(cfg, steps, n) {
        assert j < n;
      } else {
        SameEvents(cfg, steps, j);
        SameBetween(cfg, steps, j, n);
        var i :| j < i < n && LetsIn(cfg, steps, i);
        assert LetsIn(cfg, steps, i);
      }
    }
  }

  /** In every run the mark is the time of the step that sets it, or absent
      because real participants came in after every step that could. */
  lemma {:induction false} MarkIsExact(cfg: Config, steps: seq<Step>)
    ensures match Run(cfg, steps).emptySince
            case None => Unmarked(cfg, steps)
            case Some(t) => MarkedAt(cfg, steps, t)
  {
    if steps == [] {
    } else {
      var n := |steps| - 1;
      var before := steps[..n];
      var c := Run(cfg, before);
      MarkIsExact(cfg, before);
      if LetsIn(cfg, steps, n) {
        StaysUnmarked(cfg, steps);
      } else if Empties(cfg, steps, n) {
        assert SetsMark(cfg, steps, n);
      } else if c.emptySince.Some? {
        StaysMarked(cfg, steps, c.emptySince.value);
      } else if Notices(cfg, steps, n) {
        NoticeSetsMark(cfg, steps);
      } else {
        StaysUnmarked(cfg, steps);
      }
    }
  }

  /** At most one step sets the mark. */
  lemma OneStepSetsMark(cfg: Config, steps: seq<Step>, j: nat, k: nat)
    requires j <= k < |steps| && SetsMark(cfg, steps, j) && SetsMark(cfg, steps, k)
    ensures j == k
  {
  }

  /** When a room with a departure timeout closes: real participants have been
      and gone, and the timeout has passed since the step that set the mark. */
  lemma DepartedRoomExpiresIff(cfg: Config, steps: seq<Step>, now: int) returns (k: int)
    requires Proper(cfg, steps)
    requires var c := Run(cfg, steps); c.everJoined && Reals(c.participants) == {} && Leaving(steps) == 0 && !c.closed
    ensures 0 <= k < |steps| && SetsMark(cfg, steps, k)
    ensures Expired(cfg, Run(cfg, steps), now)
       <==> cfg.departureTimeout > 0 && now >= steps[k].now + cfg.departureTimeout * 1000
  {
    RunKeepsInv(cfg, steps);
    MarkIsExact(cfg, steps);
    var t := Run(cfg, steps).emptySince.value;
    k :| 0 <= k < |steps| && SetsMark(cfg, steps, k) && steps[k].now == t;
  }

  /** A room never closes while a real participant is present, and one that none
      has entered closes exactly when its empty timeout has passed. */
  lemma OccupiedAndUnusedRooms(cfg: Config, steps: seq<Step>, now: int)
    requires Proper(cfg, steps)
    ensures var c := Run(cfg, steps);
            (Reals(c.participants) != {} ==> !Expired(cfg, c, now))
            && (!c.everJoined && !c.closed ==>
                  (Expired(cfg, c, now) <==> cfg.emptyTimeout > 0 && now >= cfg.created + cfg.emptyTimeout * 1000))
  {
    RunKeepsInv(cfg, steps);
  }

  lemma RunStep(cfg: Config, steps: seq<Step>, step: Step)
    ensures Run(cfg, steps + [step]) == Apply(cfg, Run(cfg, steps), step)
  {
    assert (steps + [step])[..|steps|] == steps;
  }

  /** A departing dependent restarts the departure timer: the room a real
      participant left at `left` stays open until a timeout after the dependent
      left at `later`. */
  lemma DependentRestartsTimer(cfg: Config, p: Participant, d: Participant, left: int, later: int, now: int)
    returns (steps: seq<Step>)
    requires cfg.maxParticipants == 0 && !p.dependent && d.dependent
    requires p.sid != d.sid && p.identity != d.identity
    requires left <= later <= now && left + cfg.departureTimeout * 1000 <= now < later + cfg.departureTimeout * 1000
    ensures steps == [Enter(p), Enter(d), Remove(p.sid, left), Notice(left), Remove(d.sid, later)]
    ensures var c := Run(cfg, steps); c.participants == map[] && c.emptySince == Some(later) && !Expired(cfg, c, now)
  {
    steps := [Enter(p)];
    RunStep(cfg, [], Enter(p));
    assert [] + [Enter(p)] == steps;
    assert Run(cfg, steps) == Contents(map[p.sid := p], None, true, false);
    RunStep(cfg, steps, Enter(d));
    steps := steps + [Enter(d)];
    assert Run(cfg, steps) == Contents(map[p.sid := p, d.sid := d], None, true, false);
    RunStep(cfg, steps, Remove(p.sid, left));
    steps := steps + [Remove(p.sid, left)];
    assert Run(cfg, steps).participants == map[d.sid := d];
    RunStep(cfg, steps, Notice(left));
    steps := steps + [Notice(left)];
    assert Reals(map[d.sid := d]) == {};
    RunStep(cfg, steps, Remove(d.sid, later));
    steps := steps + [Remove(d.sid, later)];
    assert map[d.sid := d] - {d.sid} == map[];
  }
}

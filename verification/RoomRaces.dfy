/** What the separate locks of a room let happen: joins that pass the limit check
    together, and joins and departures whose writes of the empty mark cross. */
module RoomRaces {
  import opened Common
  import opened Room

  // -------------------------------------------------------------------------
  // Joins that overlap
  // -------------------------------------------------------------------------

  /** Real participants, and those past the limit check but not yet inserted;
      sessions are numbered. */
  datatype Overlap = Overlap(present: set<nat>, checked: set<nat>)

  datatype Move = Check(sid: nat) | Insert(sid: nat) | Depart(sid: nat)

  const NOBODY := Overlap({}, {})

  /** A limit of 0 is no limit. */
  function Moved(limit: nat, o: Overlap, m: Move): Overlap {
    match m
    case Check(sid) => if limit > 0 && |o.present| >= limit then o else o.(checked := o.checked + {sid})
    case Insert(sid) => if sid !in o.checked then o else Overlap(o.present + {sid}, o.checked - {sid})
    case Depart(sid) => o.(present := o.present - {sid})
  }

  function Moves(limit: nat, moves: seq<Move>): Overlap {
    if moves == [] then NOBODY else Moved(limit, Moves(limit, moves[..|moves| - 1]), moves[|moves| - 1])
  }

  predicate AtMostInFlight(limit: nat, moves: seq<Move>, n: nat) {
    forall k | 0 <= k <= |moves| :: |Moves(limit, moves[..k]).checked| <= n
  }

  predicate Headroom(limit: nat, o: Overlap, n: nat) {
    |o.present| + |o.checked| <= limit + n - 1
  }

  lemma MoveKeepsHeadroom(limit: nat, o: Overlap, m: Move, n: nat)
    requires limit > 0 && Headroom(limit, o, n) && |Moved(limit, o, m).checked| <= n
    ensures Headroom(limit, Moved(limit, o, m), n)
  {
    match m
    case Check(_) =>
    case Insert(sid) =>
      if sid in o.checked {
        assert |o.checked - {sid}| == |o.checked| - 1;
        assert |o.present + {sid}| <= |o.present| + 1;
      }
    case Depart(sid) => assert |o.present - {sid}| <= |o.present|;
  }

  /** With at most `n` joins in flight the limit is passed by at most `n - 1`;
      joins one at a time never pass it. */
  lemma {:induction false} OverlapBound(limit: nat, moves: seq<Move>, n: nat)
    requires limit > 0 && n > 0 && AtMostInFlight(limit, moves, n)
    ensures Headroom(limit, Moves(limit, moves), n) && |Moves(limit, moves).present| <= limit + n - 1
  {
    if moves == [] {
    } else {
      var before := moves[..|moves| - 1];
      forall k | 0 <= k <= |before|
        ensures |Moves(limit, before[..k]).checked| <= n
      {
        assert before[..k] == moves[..k];
      }
      OverlapBound(limit, before, n);
      assert moves[..|moves|] == moves;
      MoveKeepsHeadroom(limit, Moves(limit, before), moves[|moves| - 1], n);
    }
  }

  // -------------------------------------------------------------------------
  // The bound is met for every number of joins in flight
  // -------------------------------------------------------------------------

  function Sids(lo: nat, hi: nat): (s: set<nat>)
    requires lo <= hi
    ensures |s| == hi - lo && forall i :: i in s <==> lo <= i < hi
    decreases hi
  {
    if lo == hi then {} else Sids(lo, hi - 1) + {hi - 1}
  }

  lemma Extend(limit: nat, moves: seq<Move>, m: Move, n: nat)
    requires AtMostInFlight(limit, moves, n) && |Moved(limit, Moves(limit, moves), m).checked| <= n
    ensures AtMostInFlight(limit, moves + [m], n)
    ensures Moves(limit, moves + [m]) == Moved(limit, Moves(limit, moves), m)
  {
    var after := moves + [m];
    assert after[..|moves|] == moves;
    forall k | 0 <= k <= |after|
      ensures |Moves(limit, after[..k]).checked| <= n
    {
      if k <= |moves| {
        assert after[..k] == moves[..k];
      } else {
        assert after[..k] == after;
      }
    }
  }

  /** `k` joins one after the other. */
  lemma {:induction false} FillUp(limit: nat, k: nat, n: nat) returns (moves: seq<Move>)
    requires k < limit && n > 0
    ensures AtMostInFlight(limit, moves, n) && Moves(limit, moves) == Overlap(Sids(0, k), {})
  {
    if k == 0 {
      moves := [];
    } else {
      moves := FillUp(limit, k - 1, n);
      Extend(limit, moves, Check(k - 1), n);
      moves := moves + [Check(k - 1)];
      assert {} + {k - 1} == {k - 1};
      Extend(limit, moves, Insert(k - 1), n);
      moves := moves + [Insert(k - 1)];
    }
  }

  /** Then `k` joins pass the check together. */
  lemma {:induction false} CheckAll(limit: nat, k: nat, n: nat) returns (moves: seq<Move>)
    requires limit > 0 && k <= n && n > 0
    ensures AtMostInFlight(limit, moves, n)
    ensures Moves(limit, moves) == Overlap(Sids(0, limit - 1), Sids(limit - 1, limit - 1 + k))
  {
    if k == 0 {
      moves := FillUp(limit, limit - 1, n);
    } else {
      moves := CheckAll(limit, k - 1, n);
      Extend(limit, moves, Check(limit + k - 2), n);
      moves := moves + [Check(limit + k - 2)];
    }
  }

  /** And `k` of them are inserted. */
  lemma {:induction false} InsertAll(limit: nat, k: nat, n: nat) returns (moves: seq<Move>)
    requires limit > 0 && k <= n && n > 0
    ensures AtMostInFlight(limit, moves, n)
    ensures Moves(limit, moves) == Overlap(Sids(0, limit - 1 + k), Sids(limit - 1 + k, limit - 1 + n))
  {
    if k == 0 {
      moves := CheckAll(limit, n, n);
    } else {
      moves := InsertAll(limit, k - 1, n);
      var m := limit + k - 2;
      InsertNext(limit, m, limit - 1 + n);
      Extend(limit, moves, Insert(m), n);
      moves := moves + [Insert(m)];
    }
  }

  lemma InsertNext(limit: nat, m: nat, hi: nat)
    requires m < hi
    ensures Moved(limit, Overlap(Sids(0, m), Sids(m, hi)), Insert(m)) == Overlap(Sids(0, m + 1), Sids(m + 1, hi))
  {
    assert Sids(m, hi) - {m} == Sids(m + 1, hi);
  }

  /** For every limit and every `n`, `n` joins in flight can pass the limit by `n - 1`. */
  lemma OverlapBoundIsMet(limit: nat, n: nat) returns (moves: seq<Move>)
    requires limit > 0 && n > 0
    ensures AtMostInFlight(limit, moves, n) && |Moves(limit, moves).present| == limit + n - 1
  {
    moves := InsertAll(limit, n, n);
  }

  // -------------------------------------------------------------------------
  // Joins and departures that cross
  // -------------------------------------------------------------------------

  /** A join inserts and then, for a real participant, clears the mark. A departure
      removes, looks whether the room is empty, marks it if so, then looks for
      real participants, and marks it if there are none and it is unmarked.
      `clearing` counts joins that have yet to clear; `looking`, `due`, `ready` and
      `noticing` count departures by what they do next: the first look, the first
      mark, the second look, the second mark. `raced` says that the mark was last
      cleared while some departure was about to mark, `missed` that it was last
      cleared after the last departure was over with no real participant left. */
  datatype Race = Race(
    c: Contents, clearing: nat, looking: nat, due: nat, ready: nat, noticing: nat, raced: bool, missed: bool)

  datatype Turn =
    | LetIn(p: Participant)
    | Clear
    | TakeOut(sid: string)
    | Look
    | Write(now: int)
    | NotifyLook
    | NotifyWrite(now: int)

  const QUIET := Race(Contents(map[], None, false, false), 0, 0, 0, 0, 0, false, false)

  /** Departures under way. */
  function Leaving(r: Race): nat {
    r.looking + r.due + r.ready + r.noticing
  }

  function Inserted(cfg: Config, r: Race, p: Participant): Race {
    if !Admitted(cfg, r.c, p) || p.sid in r.c.participants then r
    else
      r.(c := r.c.(participants := r.c.participants[p.sid := p]),
         clearing := if p.dependent then r.clearing else r.clearing + 1)
  }

  function Cleared(r: Race): Race
    requires r.clearing > 0
  {
    r.(c := r.c.(everJoined := true, emptySince := None), clearing := r.clearing - 1,
       raced := r.due > 0 || r.noticing > 0,
       missed := Reals(r.c.participants) == {} && Leaving(r) == 0)
  }

  function Turned(cfg: Config, r: Race, t: Turn): Race {
    match t
    case LetIn(p) => Inserted(cfg, r, p)
    case Clear => if r.clearing == 0 then r else Cleared(r)
    case TakeOut(sid) =>
      if sid !in r.c.participants then r.(ready := r.ready + 1, missed := false)
      else r.(c := r.c.(participants := r.c.participants - {sid}), looking := r.looking + 1, missed := false)
    case Look =>
      if r.looking == 0 then r
      else if r.c.participants == map[] then r.(looking := r.looking - 1, due := r.due + 1)
      else r.(looking := r.looking - 1, ready := r.ready + 1)
    case Write(now) =>
      if r.due == 0 then r else r.(c := r.c.(emptySince := Some(now)), due := r.due - 1, ready := r.ready + 1)
    case NotifyLook =>
      if r.ready == 0 then r
      else r.(ready := r.ready - 1, noticing := if Reals(r.c.participants) == {} then r.noticing + 1 else r.noticing)
    case NotifyWrite(now) =>
      if r.noticing == 0 then r
      else r.(c := if r.c.emptySince.None? then r.c.(emptySince := Some(now)) else r.c, noticing := r.noticing - 1)
  }

  function Turns(cfg: Config, turns: seq<Turn>): Race {
    if turns == [] then QUIET else Turned(cfg, Turns(cfg, turns[..|turns| - 1]), turns[|turns| - 1])
  }

  /** While real participants are present the mark is set, or about to be,
      exactly after a race. */
  predicate OccupiedOk(r: Race) {
    Reals(r.c.participants) != {} && r.clearing == 0 ==>
      if r.raced then r.c.emptySince.Some? || r.due > 0 || r.noticing > 0
      else r.c.emptySince.None? && r.due == 0 && r.noticing == 0
  }

  /** When they have gone it is set, or some departure is under way, except after
      a clearing that came too late. */
  predicate EmptyOk(r: Race) {
    r.c.everJoined && Reals(r.c.participants) == {} && r.clearing == 0 ==>
      if r.missed then r.c.emptySince.None? && Leaving(r) == 0 else r.c.emptySince.Some? || Leaving(r) > 0
  }

  lemma InsertKeeps(cfg: Config, r: Race, p: Participant)
    requires OccupiedOk(r) && EmptyOk(r)
    ensures OccupiedOk(Inserted(cfg, r, p)) && EmptyOk(Inserted(cfg, r, p))
  {
    if Admitted(cfg, r.c, p) && p.sid !in r.c.participants {
      RealsAfterJoin(r.c.participants, p);
    }
  }

  lemma TurnKeeps(cfg: Config, r: Race, t: Turn)
    requires OccupiedOk(r) && EmptyOk(r)
    ensures OccupiedOk(Turned(cfg, r, t)) && EmptyOk(Turned(cfg, r, t))
  {
    match t
    case LetIn(p) => InsertKeeps(cfg, r, p);
    case Clear =>
    case TakeOut(sid) => RealsAfterLeave(r.c.participants, sid);
    case Look =>
    case Write(_) =>
    case NotifyLook =>
    case NotifyWrite(_) =>
  }

  lemma {:induction false} TurnsKeep(cfg: Config, turns: seq<Turn>)
    ensures OccupiedOk(Turns(cfg, turns)) && EmptyOk(Turns(cfg, turns))
  {
    if turns == [] {
    } else {
      TurnsKeep(cfg, turns[..|turns| - 1]);
      TurnKeeps(cfg, Turns(cfg, turns[..|turns| - 1]), turns[|turns| - 1]);
    }
  }

  /** Nobody is between two sections. */
  predicate AtRest(r: Race) {
    r.clearing == 0 && Leaving(r) == 0
  }

  /** In every run, at rest, an occupied room is marked empty exactly when the mark
      was last cleared while a departure, on its first or second look, was about
      to set it. */
  lemma OccupiedRoomIsMarkedIff(cfg: Config, turns: seq<Turn>)
    requires var r := Turns(cfg, turns); Reals(r.c.participants) != {} && AtRest(r)
    ensures var r := Turns(cfg, turns); r.c.emptySince.Some? <==> r.raced
  {
    TurnsKeep(cfg, turns);
  }

  /** In every run, at rest, a room real participants have left is unmarked, and so
      never expires, exactly when the mark was last cleared after they had gone and
      no departure has begun since. */
  lemma DepartedRoomIsUnmarkedIff(cfg: Config, turns: seq<Turn>)
    requires var r := Turns(cfg, turns); r.c.everJoined && Reals(r.c.participants) == {} && AtRest(r)
    ensures var r := Turns(cfg, turns); r.c.emptySince.None? <==> r.missed
    ensures var r := Turns(cfg, turns); r.missed ==> forall now :: !Expired(cfg, r.c, now)
  {
    TurnsKeep(cfg, turns);
  }

  // -------------------------------------------------------------------------
  // The crossings happen
  // -------------------------------------------------------------------------

  lemma TurnStep(cfg: Config, turns: seq<Turn>, r: Race, t: Turn)
    requires Turns(cfg, turns) == r
    ensures Turns(cfg, turns + [t]) == Turned(cfg, r, t)
  {
    assert (turns + [t])[..|turns|] == turns;
  }

  /** A room without a limit, open, holding these participants. */
  predicate Holds(cfg: Config, r: Race, ps: map<string, Participant>) {
    cfg.maxParticipants == 0 && !r.c.closed && r.c.participants == ps
  }

  lemma Enters(cfg: Config, r: Race, ps: map<string, Participant>, p: Participant)
    requires Holds(cfg, r, ps) && p.sid !in ps && !IdentityTaken(ps, p.identity)
    ensures Holds(cfg, Inserted(cfg, r, p), ps[p.sid := p])
    ensures Inserted(cfg, r, p).clearing == if p.dependent then r.clearing else r.clearing + 1
  {
  }

  /** `p` comes in and leaves; before its removal marks the empty room at `marked`,
      `q` comes in. */
  lemma MarkLate(cfg: Config, p: Participant, q: Participant, marked: int) returns (turns: seq<Turn>, r: Race)
    requires cfg.maxParticipants == 0 && !p.dependent && !q.dependent
    ensures turns == [LetIn(p), Clear, TakeOut(p.sid), Look, LetIn(q), Clear, Write(marked), NotifyLook]
    ensures r == Turns(cfg, turns)
         == Race(Contents(map[q.sid := q], Some(marked), true, false), 0, 0, 0, 0, 0, true, false)
  {
    turns, r := [], QUIET;
    Enters(cfg, r, map[], p);
    TurnStep(cfg, turns, r, LetIn(p));
    turns, r := turns + [LetIn(p)], Inserted(cfg, r, p);
    TurnStep(cfg, turns, r, Clear);
    turns, r := turns + [Clear], Cleared(r);
    TurnStep(cfg, turns, r, TakeOut(p.sid));
    turns, r := turns + [TakeOut(p.sid)], Turned(cfg, r, TakeOut(p.sid));
    assert r.c.participants == map[];
    TurnStep(cfg, turns, r, Look);
    turns, r := turns + [Look], Turned(cfg, r, Look);
    turns, r := MarkLateRest(cfg, turns, r, q, marked);
  }

  lemma MarkLateRest(cfg: Config, before: seq<Turn>, r0: Race, q: Participant, marked: int)
    returns (turns: seq<Turn>, r: Race)
    requires cfg.maxParticipants == 0 && !q.dependent && Turns(cfg, before) == r0
    requires r0 == Race(Contents(map[], None, true, false), 0, 0, 1, 0, 0, false, false)
    ensures turns == before + [LetIn(q), Clear, Write(marked), NotifyLook]
    ensures r == Turns(cfg, turns)
         == Race(Contents(map[q.sid := q], Some(marked), true, false), 0, 0, 0, 0, 0, true, false)
  {
    turns, r := before, r0;
    Enters(cfg, r, map[], q);
    TurnStep(cfg, turns, r, LetIn(q));
    turns, r := turns + [LetIn(q)], Inserted(cfg, r, q);
    TurnStep(cfg, turns, r, Clear);
    turns, r := turns + [Clear], Cleared(r);
    TurnStep(cfg, turns, r, Write(marked));
    turns, r := turns + [Write(marked)], Turned(cfg, r, Write(marked));
    assert q.sid in Reals(r.c.participants);
    TurnStep(cfg, turns, r, NotifyLook);
    turns, r := turns + [NotifyLook], Turned(cfg, r, NotifyLook);
  }

  /** `q` leaves `d` behind, as far as the second look. */
  lemma LeavesBehind(cfg: Config, before: seq<Turn>, r0: Race, d: Participant, q: Participant)
    returns (turns: seq<Turn>, r: Race)
    requires Turns(cfg, before) == r0 && Holds(cfg, r0, map[d.sid := d, q.sid := q]) && AtRest(r0)
    requires d.dependent && q.sid != d.sid
    ensures turns == before + [TakeOut(q.sid), Look, NotifyLook]
    ensures r == Turns(cfg, turns) && Holds(cfg, r, map[d.sid := d]) && Reals(r.c.participants) == {}
    ensures r.c.emptySince == r0.c.emptySince && r.c.everJoined == r0.c.everJoined
    ensures r.clearing == 0 && r.looking == 0 && r.due == 0 && r.ready == 0 && r.noticing == 1
  {
    OnlyDependent(d, q);
    turns, r := before, r0;
    TurnStep(cfg, turns, r, TakeOut(q.sid));
    turns, r := turns + [TakeOut(q.sid)], Turned(cfg, r, TakeOut(q.sid));
    assert r.c.participants == map[d.sid := d] && r.looking == 1;
    TurnStep(cfg, turns, r, Look);
    turns, r := turns + [Look], Turned(cfg, r, Look);
    assert r.ready == 1 && r.looking == 0;
    TurnStep(cfg, turns, r, NotifyLook);
    turns, r := turns + [NotifyLook], Turned(cfg, r, NotifyLook);
  }

  lemma OnlyDependent(d: Participant, q: Participant)
    requires d.dependent && q.sid != d.sid
    ensures map[d.sid := d, q.sid := q] - {q.sid} == map[d.sid := d] != map[] && Reals(map[d.sid := d]) == {}
  {
    assert d.sid in map[d.sid := d];
  }

  /** After such a race the room can close the moment its real participant leaves:
      with a dependent `d` still there, it is expired when `q`'s departure is over
      at `now`, a timeout after `marked`. */
  lemma RaceClosesAtOnce(cfg: Config, p: Participant, q: Participant, d: Participant, marked: int, now: int)
    returns (turns: seq<Turn>, r: Race)
    requires cfg.maxParticipants == 0 && cfg.departureTimeout > 0
    requires !p.dependent && !q.dependent && d.dependent && q.sid != d.sid && q.identity != d.identity
    requires now >= marked + cfg.departureTimeout * 1000
    ensures turns == [LetIn(p), Clear, TakeOut(p.sid), Look, LetIn(q), Clear, Write(marked), NotifyLook]
                     + [LetIn(d), TakeOut(q.sid), Look, NotifyLook, NotifyWrite(now)]
    ensures r == Turns(cfg, turns) && AtRest(r) && r.c.participants == map[d.sid := d] && Expired(cfg, r.c, now)
  {
    turns, r := MarkLate(cfg, p, q, marked);
    Enters(cfg, r, map[q.sid := q], d);
    TurnStep(cfg, turns, r, LetIn(d));
    turns, r := turns + [LetIn(d)], Inserted(cfg, r, d);
    turns, r := LeavesBehind(cfg, turns, r, d, q);
    TurnStep(cfg, turns, r, NotifyWrite(now));
    turns, r := turns + [NotifyWrite(now)], Turned(cfg, r, NotifyWrite(now));
  }

  /** The second look races too: `p` leaves the dependent `d` behind, `q` comes in
      after the look for real participants, and the room of `q` is marked. */
  lemma NoticeRaces(cfg: Config, p: Participant, d: Participant, q: Participant, marked: int)
    returns (turns: seq<Turn>, r: Race)
    requires cfg.maxParticipants == 0 && !p.dependent && d.dependent && !q.dependent
    requires p.sid != d.sid && p.identity != d.identity && q.sid != d.sid && q.identity != d.identity
    ensures turns == [LetIn(d), LetIn(p), Clear, TakeOut(p.sid), Look, NotifyLook, LetIn(q), Clear, NotifyWrite(marked)]
    ensures r == Turns(cfg, turns) && AtRest(r) && q.sid in Reals(r.c.participants) && r.c.emptySince == Some(marked)
  {
    turns, r := [], QUIET;
    Enters(cfg, r, map[], d);
    TurnStep(cfg, turns, r, LetIn(d));
    turns, r := turns + [LetIn(d)], Inserted(cfg, r, d);
    Enters(cfg, r, map[d.sid := d], p);
    TurnStep(cfg, turns, r, LetIn(p));
    turns, r := turns + [LetIn(p)], Inserted(cfg, r, p);
    TurnStep(cfg, turns, r, Clear);
    turns, r := turns + [Clear], Cleared(r);
    turns, r := LeavesBehind(cfg, turns, r, d, p);
    turns, r := EntersLate(cfg, turns, r, d, q, marked);
  }

  lemma EntersLate(cfg: Config, before: seq<Turn>, r0: Race, d: Participant, q: Participant, marked: int)
    returns (turns: seq<Turn>, r: Race)
    requires Turns(cfg, before) == r0 && Holds(cfg, r0, map[d.sid := d])
    requires r0.clearing == 0 && r0.looking == 0 && r0.due == 0 && r0.ready == 0 && r0.noticing == 1
    requires !q.dependent && q.sid != d.sid && q.identity != d.identity
    ensures turns == before + [LetIn(q), Clear, NotifyWrite(marked)]
    ensures r == Turns(cfg, turns) && AtRest(r) && q.sid in Reals(r.c.participants) && r.c.emptySince == Some(marked)
  {
    turns, r := before, r0;
    Enters(cfg, r, map[d.sid := d], q);
    TurnStep(cfg, turns, r, LetIn(q));
    turns, r := turns + [LetIn(q)], Inserted(cfg, r, q);
    TurnStep(cfg, turns, r, Clear);
    turns, r := turns + [Clear], Cleared(r);
    TurnStep(cfg, turns, r, NotifyWrite(marked));
    turns, r := turns + [NotifyWrite(marked)], Turned(cfg, r, NotifyWrite(marked));
  }

  /** A join can clear after its participant has gone: the room is left unmarked
      and does not expire at any time. */
  lemma LateClearKeepsRoomOpen(cfg: Config, q: Participant, marked: int, noticed: int) returns (turns: seq<Turn>, r: Race)
    requires cfg.maxParticipants == 0 && !q.dependent
    ensures turns == [LetIn(q), TakeOut(q.sid), Look, Write(marked), NotifyLook, NotifyWrite(noticed), Clear]
    ensures r == Turns(cfg, turns) && AtRest(r) && r.c.participants == map[] && r.c.everJoined
    ensures forall now :: !Expired(cfg, r.c, now)
  {
    turns, r := [], QUIET;
    Enters(cfg, r, map[], q);
    TurnStep(cfg, turns, r, LetIn(q));
    turns, r := turns + [LetIn(q)], Inserted(cfg, r, q);
    TurnStep(cfg, turns, r, TakeOut(q.sid));
    turns, r := turns + [TakeOut(q.sid)], Turned(cfg, r, TakeOut(q.sid));
    assert r.c.participants == map[] && Reals(r.c.participants) == {};
    TurnStep(cfg, turns, r, Look);
    turns, r := turns + [Look], Turned(cfg, r, Look);
    TurnStep(cfg, turns, r, Write(marked));
    turns, r := turns + [Write(marked)], Turned(cfg, r, Write(marked));
    TurnStep(cfg, turns, r, NotifyLook);
    turns, r := turns + [NotifyLook], Turned(cfg, r, NotifyLook);
    TurnStep(cfg, turns, r, NotifyWrite(noticed));
    turns, r := turns + [NotifyWrite(noticed)], Turned(cfg, r, NotifyWrite(noticed));
    TurnStep(cfg, turns, r, Clear);
    turns, r := turns + [Clear], Cleared(r);
  }
}

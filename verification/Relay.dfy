/** The signaling relay: a stream of any number of writers, read in batches. */
module Relay {
  import opened Common
  import opened Decimal
  import Lists

  type Fields = seq<(string, string)>
  type Entry = (nat, Fields)
  type Request = string

  // -------------------------------------------------------------------------
  // What an entry means to the reader
  // -------------------------------------------------------------------------

  /** The value of a key; a later pair replaces an earlier one. */
  function Lookup(fields: Fields, key: string): Option<string> {
    if fields == [] then None
    else
      var last := fields[|fields| - 1];
      if last.0 == key then Some(last.1) else Lookup(fields[..|fields| - 1], key)
  }

  datatype Event = Close | Deliver(request: Request) | Other

  /** How an entry is read; `decode` is base64 followed by the protobuf decoder. */
  function Meaning(decode: string -> Option<Request>): Fields -> Event {
    (fields: Fields) =>
      match Lookup(fields, "kind")
      case None => Other
      case Some(kind) =>
        if kind == "close" then Close
        else if kind != "request" then Other
        else
          match Lookup(fields, "data")
          case None => Other
          case Some(data) =>
            match decode(data)
            case None => Other
            case Some(r) => Deliver(r)
  }

  function RequestIn(read: Fields -> Event, fields: Fields): seq<Request> {
    match read(fields)
    case Deliver(r) => [r]
    case _ => []
  }

  /** The requests in a list of appended entries, in order. */
  function Requests(read: Fields -> Event, log: seq<Fields>): seq<Request> {
    if log == [] then [] else RequestIn(read, log[0]) + Requests(read, log[1..])
  }

  predicate HasClose(read: Fields -> Event, log: seq<Fields>) {
    exists f | f in log :: read(f).Close?
  }

  function Contents(queue: seq<Entry>): seq<Fields> {
    seq(|queue|, i requires 0 <= i < |queue| => queue[i].1)
  }

  lemma {:induction false} RequestsConcat(read: Fields -> Event, a: seq<Fields>, b: seq<Fields>)
    ensures Requests(read, a + b) == Requests(read, a) + Requests(read, b)
  {
    if a == [] {
      assert a + b == b;
    } else {
      RequestsConcat(read, a[1..], b);
      assert (a + b)[1..] == a[1..] + b;
      Lists.Regroup(RequestIn(read, a[0]), Requests(read, a[1..]), Requests(read, b));
    }
  }

  lemma Alone(read: Fields -> Event, x: Fields)
    ensures Requests(read, [x]) == RequestIn(read, x)
  {
    assert [x][1..] == [];
  }

  // -------------------------------------------------------------------------
  // Entry ids as text
  // -------------------------------------------------------------------------

  function IdText(id: nat): string {
    Pad(0, id)
  }

  /** The number a reader's position stands for; text that is no number is 0. */
  function Position(last: string): int {
    if last == "$" then 0
    else
      match ParseInt(last, 0, U64_MAX)
      case Some(n) => n
      case None => 0
  }

  lemma PositionOfId(id: nat)
    requires id <= U64_MAX
    ensures Position(IdText(id)) == id
  {
    PadText(0, id);
    ParsePad(0, id, 0, U64_MAX);
    assert IdText(id)[0] in IdText(id);
  }

  // -------------------------------------------------------------------------
  // The stream, drained by every poll
  // -------------------------------------------------------------------------

  /** Entries after a position, in order. */
  function Newer(queue: seq<Entry>, last: int): seq<Entry> {
    if queue == [] then []
    else if queue[0].0 > last then [queue[0]] + Newer(queue[1..], last)
    else Newer(queue[1..], last)
  }

  function Texts(entries: seq<Entry>): seq<(string, Fields)> {
    seq(|entries|, i requires 0 <= i < |entries| => (IdText(entries[i].0), entries[i].1))
  }

  lemma PollStep(taken: seq<Entry>, queue: seq<Entry>, after: int)
    requires queue != []
    ensures var front, rest := queue[0], Newer(queue[1..], after);
            taken + Newer(queue, after) == if front.0 > after then taken + [front] + rest else taken + rest
    ensures Texts(taken + [queue[0]]) == Texts(taken) + [(IdText(queue[0].0), queue[0].1)]
  {
    Lists.Regroup(taken, [queue[0]], Newer(queue[1..], after));
  }

  class Stream {
    var queue: seq<Entry>
    var nextId: nat

    constructor ()
      ensures queue == [] && nextId == 0
    {
      queue, nextId := [], 0;
    }

    method Next() returns (id: nat)
      requires nextId < U64_MAX
      modifies `nextId
      ensures id == nextId == old(nextId) + 1
    {
      nextId := nextId + 1;
      id := nextId;
    }

    method Xadd(fields: Fields)
      requires nextId < U64_MAX
      modifies this
      ensures nextId == old(nextId) + 1
      ensures queue == old(queue) + [(nextId, fields)]
    {
      var id := Next();
      queue := queue + [(id, fields)];
    }

    /** One poll: takes everything out and keeps what is newer than `last`. */
    method Poll(last: string) returns (out: seq<(string, Fields)>)
      modifies `queue
      ensures queue == []
      ensures out == Texts(Newer(old(queue), Position(last)))
    {
      var after := Position(last);
      out := [];
      ghost var taken: seq<Entry> := [];
      while queue != []
        invariant Newer(old(queue), after) == taken + Newer(queue, after)
        invariant out == Texts(taken)
        decreases |queue|
      {
        var front := queue[0];
        PollStep(taken, queue, after);
        queue := queue[1..];
        if front.0 > after {
          taken := taken + [front];
          out := out + [(IdText(front.0), front.1)];
        }
      }
      assert Newer(old(queue), after) == taken;
    }
  }

  // -------------------------------------------------------------------------
  // The reader
  // -------------------------------------------------------------------------

  /** Reader position and undelivered requests. */
  datatype Cursor = Cursor(last: string, pending: seq<Request>)

  function Bodies(batch: seq<(string, Fields)>): seq<Fields> {
    seq(|batch|, i requires 0 <= i < |batch| => batch[i].1)
  }

  /** The cursor after a batch. */
  function Absorb(read: Fields -> Event, c: Cursor, batch: seq<(string, Fields)>): Cursor {
    Cursor(if batch == [] then c.last else batch[|batch| - 1].0, c.pending + Requests(read, Bodies(batch)))
  }

  lemma AbsorbOne(read: Fields -> Event, c: Cursor, batch: seq<(string, Fields)>, i: nat)
    requires i < |batch|
    ensures var d, m := Absorb(read, c, batch[..i]), read(batch[i].1);
            Absorb(read, c, batch[..i + 1])
            == Cursor(batch[i].0, if m.Deliver? then d.pending + [m.request] else d.pending)
    ensures HasClose(read, Bodies(batch[..i + 1]))
         == (HasClose(read, Bodies(batch[..i])) || read(batch[i].1).Close?)
  {
    var before, now := Bodies(batch[..i]), Bodies(batch[..i + 1]);
    assert now == before + [batch[i].1];
    RequestsConcat(read, before, [batch[i].1]);
    Alone(read, batch[i].1);
  }

  /** Result of one call, for the poll results it sees; None ends the stream. */
  function NextOf(read: Fields -> Event, c: Cursor, polls: seq<seq<(string, Fields)>>)
    : (Cursor, Option<Request>)
    decreases |polls|
  {
    if c.pending != [] then (c.(pending := c.pending[1..]), Some(c.pending[0]))
    else if polls == [] then (c, None)
    else
      var d := Absorb(read, c, polls[0]);
      if HasClose(read, Bodies(polls[0])) then (d, None) else NextOf(read, d, polls[1..])
  }

  class Reader {
    var last: string
    var pending: seq<Request>

    constructor ()
      ensures last == "$" && pending == []
    {
      last, pending := "$", [];
    }

    function State(): Cursor
      reads this
    {
      Cursor(last, pending)
    }

    method TakeBatch(decode: string -> Option<Request>, batch: seq<(string, Fields)>) returns (gotClose: bool)
      modifies this
      ensures State() == Absorb(Meaning(decode), old(State()), batch)
      ensures gotClose == HasClose(Meaning(decode), Bodies(batch))
    {
      gotClose := false;
      assert Bodies(batch[..0]) == [];
      assert pending + [] == pending;
      for i := 0 to |batch|
        invariant State() == Absorb(Meaning(decode), old(State()), batch[..i])
        invariant gotClose == HasClose(Meaning(decode), Bodies(batch[..i]))
      {
        var (id, fields) := batch[i];
        last := id;
        AbsorbOne(Meaning(decode), old(State()), batch, i);
        match Meaning(decode)(fields) {
          case Close =>
            gotClose := true;
          case Deliver(r) =>
            pending := pending + [r];
          case Other =>
        }
      }
      assert batch[..|batch|] == batch;
    }

    /** Each element of `polls` is what one blocking read returned; running out
        of them is a read that timed out. */
    method NextRequest(decode: string -> Option<Request>, polls: seq<seq<(string, Fields)>>) returns (r: Option<Request>)
      modifies this
      ensures (State(), r) == NextOf(Meaning(decode), old(State()), polls)
    {
      if pending != [] {
        r := Some(pending[0]);
        pending := pending[1..];
        return;
      }
      for i := 0 to |polls|
        invariant pending == []
        invariant NextOf(Meaning(decode), State(), polls[i..]) == NextOf(Meaning(decode), old(State()), polls)
      {
        assert polls[i..][1..] == polls[i + 1..];
        var gotClose := TakeBatch(decode, polls[i]);
        if gotClose {
          return None;
        }
        if pending != [] {
          r := Some(pending[0]);
          pending := pending[1..];
          return;
        }
      }
      return None;
    }
  }

  // -------------------------------------------------------------------------
  // Writers and one reader, interleaved
  // -------------------------------------------------------------------------

  /** `writing` holds appends that have their id but are not pushed yet, `log` what
      was pushed, `delivered` what calls returned before the first end of stream. */
  datatype World = World(
    next: nat, writing: seq<Entry>, queue: seq<Entry>, log: seq<Fields>,
    cursor: Cursor, delivered: seq<Request>, idle: bool, ended: bool)

  datatype Step =
    | TakeId(fields: Fields)    // the first locked section of an append
    | Push(i: nat)              // the second, of any append under way
    | Poll                      // drain the queue and take the batch in
    | Return                    // a call returns a pending request
    | TimeOut                   // a call gives up after an empty poll

  function Init(): World {
    World(0, [], [], [], Cursor("$", []), [], false, false)
  }

  predicate CanPoll(w: World) {
    !w.ended && w.cursor.pending == []
  }

  /** What a poll hands to the reader. */
  function Seen(w: World): seq<Entry> {
    Newer(w.queue, Position(w.cursor.last))
  }

  function DoPoll(read: Fields -> Event, w: World): World {
    var batch := Texts(Seen(w));
    w.(queue := [], cursor := Absorb(read, w.cursor, batch), idle := batch == [],
       ended := HasClose(read, Bodies(batch)))
  }

  function DoPush(w: World, i: nat): World
    requires i < |w.writing|
  {
    w.(writing := w.writing[..i] + w.writing[i + 1..], queue := w.queue + [w.writing[i]],
       log := w.log + [w.writing[i].1])
  }

  function Apply(read: Fields -> Event, w: World, step: Step): World {
    match step
    case TakeId(fields) =>
      if w.next >= U64_MAX then w
      else w.(next := w.next + 1, writing := w.writing + [(w.next + 1, fields)])
    case Push(i) => if i < |w.writing| then DoPush(w, i) else w
    case Poll => if CanPoll(w) then DoPoll(read, w) else w
    case Return =>
      if w.ended || w.cursor.pending == [] then w
      else w.(cursor := w.cursor.(pending := w.cursor.pending[1..]), idle := false,
              delivered := w.delivered + [w.cursor.pending[0]])
    case TimeOut => if CanPoll(w) && w.idle then w.(ended := true) else w
  }

  function Run(read: Fields -> Event, steps: seq<Step>): World {
    if steps == [] then Init()
    else Apply(read, Run(read, steps[..|steps| - 1]), steps[|steps| - 1])
  }

  // -------------------------------------------------------------------------
  // What a poll takes and what it drops
  // -------------------------------------------------------------------------

  /** An entry is dropped exactly when its id is not after the position. */
  lemma {:induction false} NewerIff(queue: seq<Entry>, last: int, e: Entry)
    ensures e in Newer(queue, last) <==> e in queue && e.0 > last
  {
    if queue == [] {
    } else {
      NewerIff(queue[1..], last, e);
      assert queue == [queue[0]] + queue[1..];
    }
  }

  lemma {:induction false} NothingOld(queue: seq<Entry>, last: int)
    requires forall e | e in queue :: last < e.0
    ensures Newer(queue, last) == queue
  {
    if queue == [] {
    } else {
      NothingOld(queue[1..], last);
    }
  }

  predicate IsRequest(read: Fields -> Event, e: Entry) {
    read(e.1).Deliver?
  }

  /** The poll drops a request. */
  predicate Drops(read: Fields -> Event, queue: seq<Entry>, last: int) {
    exists e | e in queue :: e.0 <= last && IsRequest(read, e)
  }

  lemma {:induction false} RequestsOfNewer(read: Fields -> Event, queue: seq<Entry>, last: int)
    ensures var kept, all := Requests(read, Contents(Newer(queue, last))), Requests(read, Contents(queue));
            if Drops(read, queue, last) then |kept| < |all| else kept == all
  {
    if queue == [] {
    } else {
      var e, rest := queue[0], queue[1..];
      var older := Newer(rest, last);
      assert queue == [e] + rest;
      assert Newer(queue, last) == if e.0 > last then [e] + older else older;
      RequestsOfNewer(read, rest, last);
      DropsSplit(read, queue, last);
      HeadRequests(read, e, rest);
      HeadRequests(read, e, older);
      HeadCounts(if IsRequest(read, e) then [read(e.1).request] else [],
                 Requests(read, Contents(older)), Requests(read, Contents(rest)));
    }
  }

  lemma HeadCounts(head: seq<Request>, kept: seq<Request>, all: seq<Request>)
    ensures |head + kept| == |head| + |kept| && |head + all| == |head| + |all|
    ensures head == [] ==> head + all == all
  {
  }

  lemma DropsSplit(read: Fields -> Event, queue: seq<Entry>, last: int)
    requires queue != []
    ensures Drops(read, queue, last)
       <==> (queue[0].0 <= last && IsRequest(read, queue[0])) || Drops(read, queue[1..], last)
  {
    if Drops(read, queue[1..], last) {
      var e :| e in queue[1..] && e.0 <= last && IsRequest(read, e);
      assert e in queue;
    }
    if Drops(read, queue, last) {
      var e :| e in queue && e.0 <= last && IsRequest(read, e);
      assert e == queue[0] || e in queue[1..];
    }
  }

  lemma HeadRequests(read: Fields -> Event, e: Entry, rest: seq<Entry>)
    ensures var head := if IsRequest(read, e) then [read(e.1).request] else [];
            Requests(read, Contents([e] + rest)) == head + Requests(read, Contents(rest))
  {
    assert Contents([e] + rest) == [e.1] + Contents(rest);
    assert ([e.1] + Contents(rest))[1..] == Contents(rest);
  }

  lemma BodiesOfTexts(queue: seq<Entry>)
    ensures Bodies(Texts(queue)) == Contents(queue)
  {
  }

  lemma AbsorbTexts(read: Fields -> Event, c: Cursor, queue: seq<Entry>)
    ensures Absorb(read, c, Texts(queue))
         == Cursor(if queue == [] then c.last else IdText(queue[|queue| - 1].0),
                   c.pending + Requests(read, Contents(queue)))
  {
    BodiesOfTexts(queue);
  }

  // -------------------------------------------------------------------------
  // Requests are conserved unless a poll drops one
  // -------------------------------------------------------------------------

  /** Every pushed request is delivered, pending or queued, in that order. */
  predicate Conserved(delivered: seq<Request>, pending: seq<Request>, queued: seq<Request>, logged: seq<Request>) {
    delivered + (pending + queued) == logged
  }

  predicate AllKept(read: Fields -> Event, w: World) {
    Conserved(w.delivered, w.cursor.pending, Requests(read, Contents(w.queue)), Requests(read, w.log))
  }

  /** Pushed requests that are in none of the three places. */
  function Missing(read: Fields -> Event, w: World): int {
    |Requests(read, w.log)| - |w.delivered| - |w.cursor.pending| - |Requests(read, Contents(w.queue))|
  }

  lemma PushRequests(read: Fields -> Event, queue: seq<Entry>, log: seq<Fields>, e: Entry)
    ensures var r := Requests(read, [e.1]);
            Requests(read, Contents(queue + [e])) == Requests(read, Contents(queue)) + r
            && Requests(read, log + [e.1]) == Requests(read, log) + r
  {
    assert Contents(queue + [e]) == Contents(queue) + [e.1];
    RequestsConcat(read, Contents(queue), [e.1]);
    RequestsConcat(read, log, [e.1]);
  }

  lemma PushKeeps(read: Fields -> Event, w: World, i: nat)
    requires i < |w.writing|
    ensures Missing(read, DoPush(w, i)) == Missing(read, w)
    ensures AllKept(read, w) ==> AllKept(read, DoPush(w, i))
  {
    var e := w.writing[i];
    PushRequests(read, w.queue, w.log, e);
    PushFlow(w.delivered, w.cursor.pending, Requests(read, Contents(w.queue)), Requests(read, w.log),
             Requests(read, [e.1]));
  }

  lemma PushFlow(d: seq<Request>, p: seq<Request>, q: seq<Request>, l: seq<Request>, r: seq<Request>)
    ensures Conserved(d, p, q, l) ==> Conserved(d, p, q + r, l + r)
  {
    assert d + (p + (q + r)) == (d + (p + q)) + r;
  }

  lemma PollCursor(read: Fields -> Event, w: World)
    ensures var v := DoPoll(read, w);
            v.cursor.pending == w.cursor.pending + Requests(read, Contents(Seen(w)))
            && v.ended == HasClose(read, Contents(Seen(w)))
            && v.cursor.last == if Seen(w) == [] then w.cursor.last else IdText(Seen(w)[|Seen(w)| - 1].0)
  {
    AbsorbTexts(read, w.cursor, Seen(w));
    BodiesOfTexts(Seen(w));
  }

  lemma PollKeepsUnlessDropping(read: Fields -> Event, w: World)
    ensures var v := DoPoll(read, w);
            if Drops(read, w.queue, Position(w.cursor.last)) then Missing(read, v) > Missing(read, w)
            else Missing(read, v) == Missing(read, w) && (AllKept(read, w) ==> AllKept(read, v))
  {
    PollCursor(read, w);
    RequestsOfNewer(read, w.queue, Position(w.cursor.last));
    assert Contents([]) == [];
    var p, q := w.cursor.pending, Requests(read, Contents(Seen(w)));
    assert p + q + [] == p + q;
  }

  lemma ReturnKeeps(read: Fields -> Event, w: World)
    requires !w.ended && w.cursor.pending != []
    ensures var v := Apply(read, w, Return);
            Missing(read, v) == Missing(read, w) && (AllKept(read, w) ==> AllKept(read, v))
  {
    var d, p, q := w.delivered, w.cursor.pending, Requests(read, Contents(w.queue));
    assert d + (p + q) == (d + [p[0]]) + (p[1..] + q);
  }

  /** The step is a poll that drops a request. */
  predicate Loses(read: Fields -> Event, w: World, step: Step) {
    step == Poll && CanPoll(w) && Drops(read, w.queue, Position(w.cursor.last))
  }

  lemma StepLoses(read: Fields -> Event, w: World, step: Step)
    ensures var v := Apply(read, w, step);
            if Loses(read, w, step) then Missing(read, v) > Missing(read, w)
            else Missing(read, v) == Missing(read, w) && (AllKept(read, w) ==> AllKept(read, v))
  {
    match step
    case TakeId(_) =>
    case Push(i) => if i < |w.writing| { PushKeeps(read, w, i); }
    case Poll => if CanPoll(w) { PollKeepsUnlessDropping(read, w); }
    case Return => if !w.ended && w.cursor.pending != [] { ReturnKeeps(read, w); }
    case TimeOut =>
  }

  /** Some poll of the run dropped a request. */
  predicate RunLoses(read: Fields -> Event, steps: seq<Step>) {
    exists k | 0 <= k < |steps| :: LosesAt(read, steps, k)
  }

  predicate LosesAt(read: Fields -> Event, steps: seq<Step>, k: nat)
    requires k < |steps|
  {
    Loses(read, Run(read, steps[..k]), steps[k])
  }

  lemma RunLosesSplit(read: Fields -> Event, steps: seq<Step>)
    requires steps != []
    ensures var before := steps[..|steps| - 1];
            RunLoses(read, steps)
            <==> RunLoses(read, before) || Loses(read, Run(read, before), steps[|steps| - 1])
  {
    var before := steps[..|steps| - 1];
    if RunLoses(read, before) {
      var k :| 0 <= k < |before| && LosesAt(read, before, k);
      SamePrefix(read, steps, k);
    }
    if RunLoses(read, steps) {
      var k :| 0 <= k < |steps| && LosesAt(read, steps, k);
      if k < |before| {
        SamePrefix(read, steps, k);
      }
    }
    assert LosesAt(read, steps, |steps| - 1) == Loses(read, Run(read, before), steps[|steps| - 1]);
  }

  lemma SamePrefix(read: Fields -> Event, steps: seq<Step>, k: nat)
    requires k < |steps| - 1
    ensures LosesAt(read, steps[..|steps| - 1], k) == LosesAt(read, steps, k)
  {
    assert steps[..|steps| - 1][..k] == steps[..k];
  }

  /** With any number of writers, every pushed request is delivered, pending or
      queued, in order, exactly when no poll met a request whose id was not after
      the reader's position; a request once dropped stays missing. */
  lemma {:induction false} NothingLostIff(read: Fields -> Event, steps: seq<Step>)
    ensures AllKept(read, Run(read, steps)) <==> !RunLoses(read, steps)
    ensures Missing(read, Run(read, steps)) >= 0
    ensures RunLoses(read, steps) <==> Missing(read, Run(read, steps)) > 0
  {
    if steps == [] {
      assert Contents([]) == [];
    } else {
      var before := steps[..|steps| - 1];
      NothingLostIff(read, before);
      RunLosesSplit(read, steps);
      StepLoses(read, Run(read, before), steps[|steps| - 1]);
      KeptIsNotMissing(read, Run(read, steps));
    }
  }

  lemma KeptIsNotMissing(read: Fields -> Event, w: World)
    ensures AllKept(read, w) ==> Missing(read, w) == 0
  {
  }

  // -------------------------------------------------------------------------
  // One writer
  // -------------------------------------------------------------------------

  /** An append is finished before the next begins. */
  predicate OneWriter(read: Fields -> Event, steps: seq<Step>) {
    forall k | 0 <= k <= |steps| :: |Run(read, steps[..k]).writing| <= 1
  }

  predicate Ascending(queue: seq<Entry>) {
    forall i, j | 0 <= i < j < |queue| :: queue[i].0 < queue[j].0
  }

  /** Ids in the queue lie after the reader and before the writer. */
  predicate Between(queue: seq<Entry>, after: int, upTo: int) {
    forall e | e in queue :: after < e.0 <= upTo
  }

  function Pushed(next: nat, writing: seq<Entry>): int {
    next - |writing|
  }

  predicate IdsOk(next: nat, writing: seq<Entry>, queue: seq<Entry>, last: string) {
    next <= U64_MAX && |writing| <= 1 && (forall e | e in writing :: e.0 == next)
    && Ascending(queue)
    && Position(last) <= Pushed(next, writing)
    && Between(queue, Position(last), Pushed(next, writing))
  }

  lemma PollIds(next: nat, writing: seq<Entry>, queue: seq<Entry>, last: string)
    requires IdsOk(next, writing, queue, last)
    ensures IdsOk(next, writing, [], if queue == [] then last else IdText(queue[|queue| - 1].0))
  {
    if queue != [] {
      var e := queue[|queue| - 1];
      assert e in queue;
      PositionOfId(e.0);
    }
  }

  lemma PushIds(next: nat, writing: seq<Entry>, queue: seq<Entry>, last: string)
    requires IdsOk(next, writing, queue, last) && |writing| == 1
    ensures IdsOk(next, [], queue + [writing[0]], last)
  {
    var e, q := writing[0], queue + [writing[0]];
    assert e in writing;
    forall i, j | 0 <= i < j < |q|
      ensures q[i].0 < q[j].0
    {
      assert q[i] in queue;
    }
  }

  /** A poll in order takes everything and drops nothing. */
  lemma PollInOrder(read: Fields -> Event, w: World)
    requires IdsOk(w.next, w.writing, w.queue, w.cursor.last)
    ensures Seen(w) == w.queue && !Drops(read, w.queue, Position(w.cursor.last))
    ensures var v := DoPoll(read, w); IdsOk(v.next, v.writing, v.queue, v.cursor.last)
  {
    NothingOld(w.queue, Position(w.cursor.last));
    PollCursor(read, w);
    PollIds(w.next, w.writing, w.queue, w.cursor.last);
  }

  lemma PushInOrder(w: World, i: nat)
    requires IdsOk(w.next, w.writing, w.queue, w.cursor.last) && i < |w.writing|
    ensures var v := DoPush(w, i); IdsOk(v.next, v.writing, v.queue, v.cursor.last)
  {
    PushIds(w.next, w.writing, w.queue, w.cursor.last);
    assert DoPush(w, i).writing == [];
  }

  lemma StepIds(read: Fields -> Event, w: World, step: Step)
    requires IdsOk(w.next, w.writing, w.queue, w.cursor.last) && |Apply(read, w, step).writing| <= 1
    ensures var v := Apply(read, w, step); IdsOk(v.next, v.writing, v.queue, v.cursor.last)
    ensures !Loses(read, w, step)
  {
    match step
    case TakeId(_) =>
    case Push(i) => if i < |w.writing| { PushInOrder(w, i); }
    case Poll => PollInOrder(read, w);
    case Return =>
    case TimeOut =>
  }

  lemma {:induction false} OneWriterKeepsIds(read: Fields -> Event, steps: seq<Step>)
    requires OneWriter(read, steps)
    ensures var w := Run(read, steps); IdsOk(w.next, w.writing, w.queue, w.cursor.last)
    ensures !RunLoses(read, steps)
  {
    if steps == [] {
    } else {
      var before := steps[..|steps| - 1];
      forall k | 0 <= k <= |before|
        ensures |Run(read, before[..k]).writing| <= 1
      {
        assert before[..k] == steps[..k];
      }
      OneWriterKeepsIds(read, before);
      assert steps[..|steps|] == steps;
      StepIds(read, Run(read, before), steps[|steps| - 1]);
      RunLosesSplit(read, steps);
    }
  }

  // -------------------------------------------------------------------------
  // Main results
  // -------------------------------------------------------------------------

  /** With one writer, what a session receives before its first end of stream is a
      prefix of the requests appended, and the rest is still pending or queued. */
  lemma DeliveredIsPrefix(read: Fields -> Event, steps: seq<Step>)
    requires OneWriter(read, steps)
    ensures var w := Run(read, steps);
            w.delivered <= Requests(read, w.log)
            && Requests(read, w.log)[|w.delivered|..] == w.cursor.pending + Requests(read, Contents(w.queue))
  {
    OneWriterKeepsIds(read, steps);
    NothingLostIff(read, steps);
  }

  /** Queued entries were pushed, and only a close marker ends the stream with
      requests pending. */
  predicate EndOk(read: Fields -> Event, w: World) {
    (forall e | e in w.queue :: e.1 in w.log)
    && (w.ended && w.cursor.pending != [] ==> HasClose(read, w.log))
  }

  lemma CloseWasLogged(read: Fields -> Event, w: World)
    requires (forall e | e in w.queue :: e.1 in w.log) && HasClose(read, Contents(Seen(w)))
    ensures HasClose(read, w.log)
  {
    var f :| f in Contents(Seen(w)) && read(f).Close?;
    var i :| 0 <= i < |Seen(w)| && Contents(Seen(w))[i] == f;
    NewerIff(w.queue, Position(w.cursor.last), Seen(w)[i]);
    assert Seen(w)[i] in Seen(w);
    assert f in w.log;
  }

  lemma StepEnds(read: Fields -> Event, w: World, step: Step)
    requires EndOk(read, w)
    ensures EndOk(read, Apply(read, w, step))
  {
    if step.Push? && step.i < |w.writing| {
      assert w.writing[step.i].1 in DoPush(w, step.i).log;
      assert forall f | f in w.log :: f in DoPush(w, step.i).log;
    } else if step.Poll? && CanPoll(w) {
      PollCursor(read, w);
      if HasClose(read, Contents(Seen(w))) {
        CloseWasLogged(read, w);
      }
    }
  }

  lemma {:induction false} RunEnds(read: Fields -> Event, steps: seq<Step>)
    ensures EndOk(read, Run(read, steps))
  {
    if steps == [] {
    } else {
      RunEnds(read, steps[..|steps| - 1]);
      StepEnds(read, Run(read, steps[..|steps| - 1]), steps[|steps| - 1]);
    }
  }

  /** With one writer, a stream that ends without a close marker has delivered
      every request but those appended after its last poll. */
  lemma QuietEndDeliversAll(read: Fields -> Event, steps: seq<Step>)
    requires OneWriter(read, steps)
    requires var w := Run(read, steps); w.ended && !HasClose(read, w.log)
    ensures var w := Run(read, steps);
            w.delivered + Requests(read, Contents(w.queue)) == Requests(read, w.log)
  {
    OneWriterKeepsIds(read, steps);
    NothingLostIff(read, steps);
    RunEnds(read, steps);
    NothingPending(read, Run(read, steps));
  }

  lemma NothingPending(read: Fields -> Event, w: World)
    requires AllKept(read, w) && w.cursor.pending == []
    ensures w.delivered + Requests(read, Contents(w.queue)) == Requests(read, w.log)
  {
    var queued := Requests(read, Contents(w.queue));
    assert w.cursor.pending + queued == queued;
  }

  /** A close marker drops the requests of its own batch: the session has
      received everything exactly when that batch carries none. */
  lemma CloseDropsItsBatch(read: Fields -> Event, steps: seq<Step>)
    requires OneWriter(read, steps)
    requires var w := Run(read, steps); CanPoll(w) && HasClose(read, Contents(w.queue))
    ensures var w := Run(read, steps); var v := Apply(read, w, Poll);
            v.ended && v.log == w.log
            && (v.delivered == Requests(read, v.log) <==> Requests(read, Contents(w.queue)) == [])
  {
    var w := Run(read, steps);
    OneWriterKeepsIds(read, steps);
    NothingLostIff(read, steps);
    PollInOrder(read, w);
    PollCursor(read, w);
    NothingPending(read, w);
    DropsTail(w.delivered, Requests(read, Contents(w.queue)));
  }

  lemma DropsTail(a: seq<Request>, b: seq<Request>)
    ensures a == a + b <==> b == []
  {
    if b == [] {
      assert a + b == a;
    } else {
      assert |a + b| > |a|;
    }
  }

  lemma RunStep(read: Fields -> Event, steps: seq<Step>, step: Step)
    ensures Run(read, steps + [step]) == Apply(read, Run(read, steps), step)
  {
    assert (steps + [step])[..|steps|] == steps;
  }

  /** With two writers a request can be lost: the first writer takes its id, the
      second takes the next, pushes and is read, and the first push comes too late. */
  lemma TwoWritersLoseARequest(read: Fields -> Event, f: Fields, g: Fields, a: Request, b: Request)
    returns (steps: seq<Step>)
    requires read(f) == Deliver(a) && read(g) == Deliver(b)
    ensures var w := Run(read, steps);
            Requests(read, w.log) == [b, a] && w.delivered == [b]
            && w.cursor.pending == [] && w.queue == [] && w.writing == [] && !w.ended
  {
    var w: World;
    steps, w := LateStart(read, f, g);
    RunStep(read, steps, Poll);
    steps := steps + [Poll];
    RunStep(read, steps, Return);
    steps := steps + [Return];
    w := ReadEarly(read, w, f, g, b);
    RunStep(read, steps, Push(0));
    steps := steps + [Push(0)];
    RunStep(read, steps, Poll);
    steps := steps + [Poll];
    w := PushLate(read, w, f, g, a, b);
  }

  lemma LateStart(read: Fields -> Event, f: Fields, g: Fields) returns (steps: seq<Step>, w: World)
    ensures w == Run(read, steps)
    ensures w == World(2, [(1, f)], [(2, g)], [g], Cursor("$", []), [], false, false)
  {
    steps := [];
    RunStep(read, steps, TakeId(f));
    steps := steps + [TakeId(f)];
    RunStep(read, steps, TakeId(g));
    steps := steps + [TakeId(g)];
    assert Run(read, steps).writing == [(1, f), (2, g)];
    RunStep(read, steps, Push(1));
    steps := steps + [Push(1)];
    w := Run(read, steps);
    assert w.writing == [(1, f)] && w.queue == [(2, g)] && w.log == [g];
  }

  lemma ReadEarly(read: Fields -> Event, w: World, f: Fields, g: Fields, b: Request) returns (v: World)
    requires w == World(2, [(1, f)], [(2, g)], [g], Cursor("$", []), [], false, false)
    requires read(g) == Deliver(b)
    ensures v == Apply(read, Apply(read, w, Poll), Return)
    ensures v == World(2, [(1, f)], [], [g], Cursor(IdText(2), []), [b], false, false)
  {
    NothingOld(w.queue, 0);
    PollCursor(read, w);
    HeadRequests(read, (2, g), []);
    assert Contents([]) == [] && [(2, g)] + [] == [(2, g)];
    assert Contents([(2, g)]) == [g];
    v := Apply(read, Apply(read, w, Poll), Return);
  }

  lemma PushLate(read: Fields -> Event, w: World, f: Fields, g: Fields, a: Request, b: Request) returns (v: World)
    requires w == World(2, [(1, f)], [], [g], Cursor(IdText(2), []), [b], false, false)
    requires read(f) == Deliver(a) && read(g) == Deliver(b)
    ensures v == Apply(read, Apply(read, w, Push(0)), Poll)
    ensures Requests(read, v.log) == [b, a] && v.delivered == [b]
    ensures v.cursor.pending == [] && v.queue == [] && v.writing == [] && !v.ended
  {
    var u := DoPush(w, 0);
    assert u.writing == [] && u.queue == [(1, f)] && u.log == [g, f];
    PositionOfId(2);
    assert Newer([(1, f)], 2) == [];
    PollCursor(read, u);
    assert Contents([]) == [];
    assert [g, f][1..] == [f];
    Alone(read, f);
    v := DoPoll(read, u);
  }
}

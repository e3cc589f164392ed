/** Choosing the dispatch rule for a SIP call, and the PIN exchange. */
module SipDispatch {
  import opened Common
  import opened Lists

  /** What a rule does with a call; the first two carry no usable rule. */
  datatype Body =
    | Missing
    | Unset
    | Direct(room: string, pin: string)
    | Individual(prefix: string, pin: string)
    | Callee(prefix: string, pin: string)

  datatype Rule = Rule(
    id: string, inboundNumbers: seq<string>, numbers: seq<string>, trunkIds: seq<string>, body: Body)

  datatype Query = Query(calling: string, called: string, pin: string, noPin: bool)

  predicate Usable(r: Rule) {
    !r.body.Missing? && !r.body.Unset?
  }

  function Pin(r: Rule): string {
    if Usable(r) then r.body.pin else ""
  }

  function RoomText(r: Rule): string {
    match r.body
    case Direct(room, _) => room
    case Individual(prefix, _) => prefix
    case Callee(prefix, _) => prefix
    case _ => ""
  }

  // -------------------------------------------------------------------------
  // Priorities
  // -------------------------------------------------------------------------

  function Priority(r: Rule): int {
    if !Usable(r) then I32_MAX
    else
      (if r.body.Direct? then 0 else if r.body.Individual? then 1 else 2)
      + (if r.body.pin == "" then 100 else 0)
      + (if r.inboundNumbers == [] then 1000 else 0)
      + (if r.numbers == [] then 1000 else 0)
  }

  /** Number filters left open, whether a PIN is missing, and the kind of rule. */
  function Openness(r: Rule): int {
    (if r.inboundNumbers == [] then 1 else 0) + (if r.numbers == [] then 1 else 0)
  }

  function Kind(r: Rule): int {
    match r.body
    case Direct(_, _) => 0
    case Individual(_, _) => 1
    case Callee(_, _) => 2
    case _ => 3
  }

  /** Fewer open filters come first, then rules with a PIN, then direct before
      individual before callee rules; unusable rules come last. */
  lemma PriorityIsLexicographic(a: Rule, b: Rule)
    requires Usable(a) && Usable(b)
    ensures Priority(a) < Priority(b)
       <==> Openness(a) < Openness(b)
            || (Openness(a) == Openness(b)
                && ((Pin(a) != "" && Pin(b) == "")
                    || ((Pin(a) == "" <==> Pin(b) == "") && Kind(a) < Kind(b))))
    ensures forall u | !Usable(u) :: Priority(a) < Priority(u)
  {
    assert Priority(a) == 1000 * Openness(a) + (if Pin(a) == "" then 100 else 0) + Kind(a);
    assert Priority(b) == 1000 * Openness(b) + (if Pin(b) == "" then 100 else 0) + Kind(b);
  }

  /** Strict lexicographic order on text. */
  predicate Less(a: string, b: string) {
    if b == "" then false
    else if a == "" then true
    else a[0] < b[0] || (a[0] == b[0] && Less(a[1..], b[1..]))
  }

  predicate Higher(a: Rule, b: Rule) {
    if Priority(a) != Priority(b) then Priority(a) < Priority(b) else Less(RoomText(a), RoomText(b))
  }

  predicate SameKey(a: Rule, b: Rule) {
    Priority(a) == Priority(b) && RoomText(a) == RoomText(b)
  }

  lemma {:induction false} LessIsTotal(a: string, b: string)
    ensures (Less(a, b) ==> !Less(b, a)) && (Less(a, b) || Less(b, a) || a == b) && !Less(a, a)
  {
    if a == "" {
    } else {
      LessIsTotal(a[1..], a[1..]);
      if b != "" {
        LessIsTotal(a[1..], b[1..]);
        assert a == [a[0]] + a[1..] && b == [b[0]] + b[1..];
      }
    }
  }

  lemma {:induction false} LessIsTransitive(a: string, b: string, c: string)
    requires Less(a, b) && Less(b, c)
    ensures Less(a, c)
  {
    if a == "" {
    } else {
      if a[0] == b[0] == c[0] {
        LessIsTransitive(a[1..], b[1..], c[1..]);
      }
    }
  }

  /** If `a` does not outrank `b` and `b` does not outrank `c`, neither does `a`. */
  lemma NotHigherIsTransitive(a: Rule, b: Rule, c: Rule)
    requires !Higher(a, b) && !Higher(b, c)
    ensures !Higher(a, c)
  {
    var x, y, z := RoomText(a), RoomText(b), RoomText(c);
    LessIsTotal(x, y);
    LessIsTotal(y, z);
    LessIsTotal(x, z);
    if Less(x, z) && Less(z, y) {
      LessIsTransitive(x, z, y);
    }
    if Less(y, x) && Less(x, z) {
      LessIsTransitive(y, x, z);
    }
  }

  lemma HigherIsTotal(a: Rule, b: Rule)
    ensures (Higher(a, b) ==> !Higher(b, a)) && (!Higher(a, b) && !Higher(b, a) <==> SameKey(a, b))
  {
    LessIsTotal(RoomText(a), RoomText(b));
  }

  // -------------------------------------------------------------------------
  // The best of a list: the first of highest rank
  // -------------------------------------------------------------------------

  function Best(s: seq<Rule>): (r: Rule)
    requires s != []
    ensures r in s
  {
    if |s| == 1 then s[0]
    else
      var b := Best(s[..|s| - 1]);
      if Higher(s[|s| - 1], b) then s[|s| - 1] else b
  }

  lemma {:induction false} BestIsBest(s: seq<Rule>, t: Rule)
    requires t in s
    ensures !Higher(t, Best(s))
  {
    if |s| == 1 {
      HigherIsTotal(t, t);
    } else {
      var before, last := s[..|s| - 1], s[|s| - 1];
      var b := Best(before);
      HigherIsTotal(last, b);
      HigherIsTotal(last, last);
      if t in before {
        BestIsBest(before, t);
        if Higher(last, b) {
          NotHigherIsTransitive(t, b, last);
        }
      } else {
        assert t == last;
      }
    }
  }

  /** Reordering a list can change the best rule but not its key. */
  lemma BestKeyIsOrderFree(a: seq<Rule>, b: seq<Rule>)
    requires a != [] && b != [] && Reordered(a, b)
    ensures SameKey(Best(a), Best(b))
  {
    ReorderedLength(a, b);
    ReorderedLength(b, a);
    BestIsBest(a, Best(b));
    BestIsBest(b, Best(a));
    HigherIsTotal(Best(a), Best(b));
  }

  lemma {:induction false} FirstBestWins(s: seq<Rule>)
    requires s != [] && forall t | t in s :: !Higher(t, s[0])
    ensures Best(s) == s[0]
  {
    if |s| == 1 {
    } else {
      FirstBestWins(s[..|s| - 1]);
    }
  }

  lemma MovedToFront(s: seq<Rule>, t: Rule) returns (p: seq<Rule>)
    requires t in s
    ensures Reordered(p, s) && p != [] && p[0] == t
  {
    var i :| 0 <= i < |s| && s[i] == t;
    p := [t] + (s[..i] + s[i + 1..]);
    assert s == s[..i] + [t] + s[i + 1..];
  }

  /** Filtering keeps the best rule if the filter does. */
  lemma {:induction false} BestSurvivesFilter(p: Rule -> bool, s: seq<Rule>)
    requires s != [] && p(Best(s))
    ensures Filter(p, s) != [] && Best(Filter(p, s)) == Best(s)
  {
    FilterMember(p, s, Best(s));
    if |s| == 1 {
      assert Filter(p, s) == s by {
        assert s[..0] == [] && s == [s[0]];
      }
    } else {
      var before, last := s[..|s| - 1], s[|s| - 1];
      var b := Best(before);
      if Higher(last, b) {
        BestOfLonger(p, before, last);
      } else {
        BestSurvivesFilter(p, before);
        if p(last) {
          BestAppend(Filter(p, before), last);
        }
      }
    }
  }

  lemma BestAppend(s: seq<Rule>, last: Rule)
    requires s != []
    ensures Best(s + [last]) == if Higher(last, Best(s)) then last else Best(s)
  {
    assert (s + [last])[..|s|] == s;
  }

  /** A rule above the best of `s` stays the best after any of `s`. */
  lemma BestOfLonger(p: Rule -> bool, s: seq<Rule>, last: Rule)
    requires s != [] && Higher(last, Best(s)) && p(last)
    ensures Best(Filter(p, s) + [last]) == last
  {
    var f := Filter(p, s);
    if f != [] {
      BestAppend(f, last);
      FilterMember(p, s, Best(f));
      BestIsBest(s, Best(f));
      HigherIsTotal(last, Best(s));
      if !Higher(last, Best(f)) {
        NotHigherIsTransitive(last, Best(f), Best(s));
      }
    }
  }

  // -------------------------------------------------------------------------
  // Matching
  // -------------------------------------------------------------------------

  predicate NumbersMatch(q: Query, r: Rule) {
    (r.inboundNumbers == [] || q.calling in r.inboundNumbers)
    && (r.numbers == [] || q.called in r.numbers)
  }

  predicate PinMatches(q: Query, r: Rule) {
    if q.noPin then Pin(r) == "" else q.pin == "" || (Pin(r) != "" && q.pin == Pin(r))
  }

  predicate Eligible(q: Query, r: Rule) {
    NumbersMatch(q, r) && Usable(r) && PinMatches(q, r)
  }

  /** Rules bound to the call's trunk. */
  function IsSpecific(q: Query, trunk: Option<string>): Rule -> bool {
    r => Eligible(q, r) && r.trunkIds != [] && trunk.Some? && trunk.value in r.trunkIds
  }

  /** Rules for any trunk. */
  function IsDefault(q: Query): Rule -> bool {
    r => Eligible(q, r) && r.trunkIds == []
  }

  datatype Matched = NoMatch | Found(rule: Rule)

  function BestOr(s: seq<Rule>, otherwise: Matched): Matched {
    if s == [] then otherwise else Found(Best(s))
  }

  /** The best specific rule, else the best default rule. */
  function Match(rules: seq<Rule>, trunk: Option<string>, q: Query): Matched {
    BestOr(Filter(IsSpecific(q, trunk), rules), BestOr(Filter(IsDefault(q), rules), NoMatch))
  }

  /** The best rule so far, as the loop keeps it. */
  predicate Tracks(best: Option<Rule>, count: nat, s: seq<Rule>) {
    count == |s| && best == if s == [] then None else Some(Best(s))
  }

  method Update(best: Option<Rule>, count: nat, ghost s: seq<Rule>, r: Rule) returns (b: Option<Rule>)
    requires Tracks(best, count, s)
    ensures Tracks(b, count + 1, s + [r])
  {
    if s != [] {
      BestAppend(s, r);
    }
    b := if best.None? || Higher(r, best.value) then Some(r) else best;
  }

  method MatchDispatchRule(rules: seq<Rule>, trunk: Option<string>, q: Query) returns (m: Matched)
    ensures m == Match(rules, trunk, q)
  {
    var specific: Option<Rule>, specificCount := None, 0;
    var fallback: Option<Rule>, fallbackCount := None, 0;
    ghost var p, d := IsSpecific(q, trunk), IsDefault(q);
    for i := 0 to |rules|
      invariant Tracks(specific, specificCount, Filter(p, rules[..i]))
      invariant Tracks(fallback, fallbackCount, Filter(d, rules[..i]))
    {
      var r := rules[i];
      FilterStep(p, rules, i);
      FilterStep(d, rules, i);
      if Eligible(q, r) {
        if r.trunkIds == [] {
          fallback := Update(fallback, fallbackCount, Filter(d, rules[..i]), r);
          fallbackCount := fallbackCount + 1;
        } else if trunk.Some? && trunk.value in r.trunkIds {
          specific := Update(specific, specificCount, Filter(p, rules[..i]), r);
          specificCount := specificCount + 1;
        }
      }
    }
    assert rules[..|rules|] == rules;
    if specificCount == 0 && fallbackCount == 0 {
      return NoMatch;
    }
    return Found(if specific.Some? then specific.value else fallback.value);
  }

  // -------------------------------------------------------------------------
  // Main results
  // -------------------------------------------------------------------------

  /** Eligible rules of the class that is searched: specific if there are any. */
  predicate InClass(rules: seq<Rule>, trunk: Option<string>, q: Query, r: Rule) {
    r in rules
    && if exists t | t in rules :: IsSpecific(q, trunk)(t) then IsSpecific(q, trunk)(r) else IsDefault(q)(r)
  }

  /** The rule found belongs to its class and nothing in the class outranks it;
      none is found exactly when the class is empty. */
  lemma MatchIsMinimal(rules: seq<Rule>, trunk: Option<string>, q: Query)
    ensures match Match(rules, trunk, q)
            case Found(r) => InClass(rules, trunk, q, r)
                             && forall t | t in rules && InClass(rules, trunk, q, t) :: !Higher(t, r)
            case NoMatch => forall t | t in rules :: !InClass(rules, trunk, q, t)
  {
    var p, d := IsSpecific(q, trunk), IsDefault(q);
    var f := if Filter(p, rules) != [] then Filter(p, rules) else Filter(d, rules);
    forall t | t in rules
      ensures p(t) <==> t in Filter(p, rules)
      ensures d(t) <==> t in Filter(d, rules)
      ensures t in f ==> f != [] && !Higher(t, Best(f))
    {
      FilterMember(p, rules, t);
      FilterMember(d, rules, t);
      if t in f {
        BestIsBest(f, t);
      }
    }
    if f != [] {
      FilterMember(p, rules, Best(f));
      FilterMember(d, rules, Best(f));
    }
    if Filter(p, rules) != [] {
      FilterMember(p, rules, Filter(p, rules)[0]);
    }
  }

  /** Any order of the rules gives a rule with the same priority and room. */
  lemma MatchKeyIsOrderFree(a: seq<Rule>, b: seq<Rule>, trunk: Option<string>, q: Query)
    requires Reordered(a, b)
    ensures match (Match(a, trunk, q), Match(b, trunk, q))
            case (NoMatch, NoMatch) => true
            case (Found(r), Found(s)) => SameKey(r, s)
            case _ => false
  {
    var p, d := IsSpecific(q, trunk), IsDefault(q);
    FilterReordered(p, a, b);
    FilterReordered(d, a, b);
    ReorderedLength(Filter(p, a), Filter(p, b));
    ReorderedLength(Filter(d, a), Filter(d, b));
    if Filter(p, a) != [] {
      BestKeyIsOrderFree(Filter(p, a), Filter(p, b));
    } else if Filter(d, a) != [] {
      BestKeyIsOrderFree(Filter(d, a), Filter(d, b));
    }
  }

  /** A list that starts with a rule of the class no other outranks finds that rule. */
  lemma HeadWins(rules: seq<Rule>, trunk: Option<string>, q: Query)
    requires rules != [] && InClass(rules, trunk, q, rules[0])
    requires forall t | t in rules && InClass(rules, trunk, q, t) :: !Higher(t, rules[0])
    ensures Match(rules, trunk, q) == Found(rules[0])
  {
    var specific := exists t | t in rules :: IsSpecific(q, trunk)(t);
    var p := if specific then IsSpecific(q, trunk) else IsDefault(q);
    FilterHead(p, rules);
    forall t | t in Filter(p, rules)
      ensures !Higher(t, rules[0])
    {
      FilterMember(p, rules, t);
    }
    FirstBestWins(Filter(p, rules));
    if !specific && Filter(IsSpecific(q, trunk), rules) != [] {
      FilterMember(IsSpecific(q, trunk), rules, Filter(IsSpecific(q, trunk), rules)[0]);
    }
  }

  lemma {:induction false} FilterHead(p: Rule -> bool, s: seq<Rule>)
    requires s != [] && p(s[0])
    ensures Filter(p, s) != [] && Filter(p, s)[0] == s[0]
  {
    if |s| == 1 {
      assert s[..0] == [];
    } else {
      FilterHead(p, s[..|s| - 1]);
    }
  }

  /** Every order of the rules gives the same rule exactly when no other rule of
      the class has its priority and room. */
  lemma MatchIsOrderFreeIff(rules: seq<Rule>, trunk: Option<string>, q: Query, r: Rule)
    requires Match(rules, trunk, q) == Found(r)
    ensures (forall s | Reordered(s, rules) :: Match(s, trunk, q) == Found(r))
       <==> (forall t | t in rules && InClass(rules, trunk, q, t) && SameKey(t, r) :: t == r)
  {
    MatchIsMinimal(rules, trunk, q);
    if forall t | t in rules && InClass(rules, trunk, q, t) && SameKey(t, r) :: t == r {
      forall s | Reordered(s, rules)
        ensures Match(s, trunk, q) == Found(r)
      {
        MatchKeyIsOrderFree(s, rules, trunk, q);
        MatchIsMinimal(s, trunk, q);
        ClassIsOrderFree(s, rules, trunk, q, Match(s, trunk, q).rule);
      }
    } else {
      var t :| t in rules && InClass(rules, trunk, q, t) && SameKey(t, r) && t != r;
      var s := MovedToFront(rules, t);
      ClassIsOrderFree(s, rules, trunk, q, t);
      forall u | u in s && InClass(s, trunk, q, u)
        ensures !Higher(u, t)
      {
        ClassIsOrderFree(s, rules, trunk, q, u);
        HigherIsTotal(r, t);
        NotHigherIsTransitive(u, r, t);
      }
      HeadWins(s, trunk, q);
    }
  }

  lemma ClassIsOrderFree(a: seq<Rule>, b: seq<Rule>, trunk: Option<string>, q: Query, r: Rule)
    requires Reordered(a, b)
    ensures InClass(a, trunk, q, r) == InClass(b, trunk, q, r)
  {
    ReorderedLength(a, b);
    ReorderedLength(b, a);
  }

  datatype Outcome = Drop | RequestPin(rule: Rule) | Accept(rule: Rule) | IncorrectPin | NoRule

  /** The PIN part of evaluating the rule that was found. */
  function CheckPin(r: Rule, pin: string): Outcome {
    if !Usable(r) then NoRule
    else if Pin(r) == "" then Accept(r)
    else if pin == "" then RequestPin(r)
    else if Pin(r) != pin then IncorrectPin
    else Accept(r)
  }

  function Evaluate(rules: seq<Rule>, trunk: Option<string>, q: Query): Outcome {
    match Match(rules, trunk, q)
    case NoMatch => Drop
    case Found(r) => CheckPin(r, q.pin)
  }

  /** A rule that was matched to the call never fails its PIN check. */
  lemma NeverIncorrectPin(rules: seq<Rule>, trunk: Option<string>, q: Query)
    ensures Evaluate(rules, trunk, q) != IncorrectPin && Evaluate(rules, trunk, q) != NoRule
    ensures q.noPin ==> !Evaluate(rules, trunk, q).RequestPin?
  {
    MatchIsMinimal(rules, trunk, q);
  }

  /** Answering a PIN request with the rule's PIN reaches that same rule. */
  lemma PinRequestIsAnswered(rules: seq<Rule>, trunk: Option<string>, q: Query, r: Rule)
    requires q.pin == "" && Evaluate(rules, trunk, q) == RequestPin(r)
    ensures Evaluate(rules, trunk, q.(pin := Pin(r))) == Accept(r)
  {
    NeverIncorrectPin(rules, trunk, q);
    var again := q.(pin := Pin(r));
    var p, d := IsSpecific(q, trunk), IsDefault(q);
    var p', d' := IsSpecific(again, trunk), IsDefault(again);
    FilterTwice(p, p', rules);
    FilterTwice(d, d', rules);
    if Filter(p, rules) != [] {
      FilterMember(p, rules, r);
      BestSurvivesFilter(p', Filter(p, rules));
    } else {
      FilterMember(d, rules, r);
      BestSurvivesFilter(d', Filter(d, rules));
      assert Filter(p', Filter(p, rules)) == [];
    }
  }

  /** The list may come in another order the second time: the rule accepted then
      has the same priority, room and PIN. */
  lemma PinRequestIsAnsweredInAnyOrder(a: seq<Rule>, b: seq<Rule>, trunk: Option<string>, q: Query, r: Rule)
    requires Reordered(a, b) && q.pin == "" && Evaluate(a, trunk, q) == RequestPin(r)
    ensures var o := Evaluate(b, trunk, q.(pin := Pin(r)));
            o.Accept? && SameKey(o.rule, r) && Pin(o.rule) == Pin(r)
  {
    var again := q.(pin := Pin(r));
    NeverIncorrectPin(a, trunk, q);
    PinRequestIsAnswered(a, trunk, q, r);
    MatchKeyIsOrderFree(b, a, trunk, again);
    MatchIsMinimal(b, trunk, again);
  }

  lemma {:induction false} FilterTwice(p: Rule -> bool, q: Rule -> bool, s: seq<Rule>)
    requires forall r | r in s && q(r) :: p(r)
    ensures Filter(q, Filter(p, s)) == Filter(q, s)
  {
    if s == [] {
    } else {
      var before, last := s[..|s| - 1], s[|s| - 1];
      FilterTwice(p, q, before);
      if p(last) {
        var f := Filter(p, before) + [last];
        assert f[..|f| - 1] == Filter(p, before);
      }
    }
  }
}

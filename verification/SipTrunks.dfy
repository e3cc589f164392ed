/** Choosing the inbound SIP trunk for a call. */
module SipTrunks {
  import opened Common
  import opened Lists

  datatype Result<T> = Ok(value: T) | MultipleTrunks | MultipleDefaults

  /** `details` stands for the fields that matching does not look at. */
  datatype Trunk = Trunk(
    id: string, allowedNumbers: seq<string>, allowedAddresses: seq<string>, numbers: seq<string>, details: string)

  datatype SipCall = SipCall(fromUser: string, fromHost: string, toUser: string, sourceIp: string)

  /** Address parsing and network containment, left uninterpreted. */
  datatype Net = Net(isIp: string -> bool, covers: (string, string) -> bool)

  // -------------------------------------------------------------------------
  // Phone numbers
  // -------------------------------------------------------------------------

  predicate IsFiller(c: char) {
    c == ' ' || c == '-' || c == '(' || c == ')'
  }

  predicate IsPhone(num: string) {
    forall c | c in num :: IsDigit(c) || c == '+' || IsFiller(c)
  }

  function Cleaned(num: string): (s: string)
    ensures forall c | c in s :: c in num && !IsFiller(c)
  {
    if num == "" then ""
    else if IsFiller(num[0]) then Cleaned(num[1..])
    else [num[0]] + Cleaned(num[1..])
  }

  function Normalize(num: string): string {
    if num == "" || !IsPhone(num) then num
    else
      var s := Cleaned(num);
      if s != "" && s[0] == '+' then s else "+" + s
  }

  lemma {:induction false} CleanedKeeps(num: string)
    requires forall c | c in num :: !IsFiller(c)
    ensures Cleaned(num) == num
  {
    if num == "" {
    } else {
      CleanedKeeps(num[1..]);
      assert [num[0]] + num[1..] == num;
    }
  }

  lemma {:induction false} CleanedAway(filler: string)
    requires forall c | c in filler :: IsFiller(c)
    ensures Cleaned(filler) == ""
  {
    if filler == "" {
    } else {
      CleanedAway(filler[1..]);
    }
  }

  lemma {:induction false} CleanedConcat(a: string, b: string)
    ensures Cleaned(a + b) == Cleaned(a) + Cleaned(b)
  {
    if a == "" {
      assert a + b == b;
    } else {
      CleanedConcat(a[1..], b);
      assert (a + b)[1..] == a[1..] + b && (a + b)[0] == a[0];
      Regroup([a[0]], Cleaned(a[1..]), Cleaned(b));
    }
  }

  /** Normal forms are fixed points. */
  lemma NormalizeIdempotent(num: string)
    ensures Normalize(Normalize(num)) == Normalize(num)
  {
    if num != "" && IsPhone(num) {
      CleanedKeeps(Normalize(num));
    }
  }

  /** Filler anywhere in a phone number does not matter. */
  lemma FillerDoesNotMatter(a: string, filler: string, b: string)
    requires IsPhone(a + b) && a + b != "" && forall c | c in filler :: IsFiller(c)
    ensures Normalize(a + filler + b) == Normalize(a + b)
  {
    CleanedConcat(a + filler, b);
    CleanedConcat(a, filler);
    CleanedConcat(a, b);
    CleanedAway(filler);
    assert Cleaned(a) + "" + Cleaned(b) == Cleaned(a) + Cleaned(b);
    forall c | c in a + filler + b
      ensures IsDigit(c) || c == '+' || IsFiller(c)
    {
      assert c in filler || c in a + b;
    }
  }

  /** Nor does a missing leading plus. */
  lemma LeadingPlusDoesNotMatter(num: string)
    requires num != "" && IsPhone(num) && (Cleaned(num) != "" ==> Cleaned(num)[0] != '+')
    ensures Normalize("+" + num) == Normalize(num) && SameNumber("+" + num, num)
  {
    CleanedConcat("+", num);
    CleanedKeeps("+");
  }

  predicate SameNumber(a: string, b: string) {
    a == b || Normalize(a) == Normalize(b)
  }

  predicate NumberAllowed(num: string, allowed: seq<string>) {
    allowed == [] || exists a | a in allowed :: SameNumber(num, a)
  }

  // -------------------------------------------------------------------------
  // Source addresses
  // -------------------------------------------------------------------------

  predicate HasScheme(mask: string) {
    exists i | 0 <= i < |mask| - 2 :: mask[i] == ':' && mask[i + 1] == '/' && mask[i + 2] == '/'
  }

  predicate ValidMask(mask: string) {
    (forall c | c in mask :: c !in "()+*;, \t\n\r") && !HasScheme(mask)
  }

  predicate AddressAllowed(net: Net, ip: string, host: string, masks: seq<string>) {
    net.isIp(ip) && (exists m | m in masks :: ValidMask(m)) ==>
      exists m | m in masks :: ValidMask(m) && (m == host || net.covers(ip, m))
  }

  // -------------------------------------------------------------------------
  // Matching
  // -------------------------------------------------------------------------

  predicate Admits(net: Net, call: SipCall, t: Trunk) {
    NumberAllowed(call.fromUser, t.allowedNumbers)
    && AddressAllowed(net, call.sourceIp, call.fromHost, t.allowedAddresses)
  }

  /** The trunk lists the called number. */
  predicate Listed(net: Net, call: SipCall, t: Trunk) {
    Admits(net, call, t) && exists n | n in t.numbers :: SameNumber(n, call.toUser)
  }

  /** The trunk takes any called number. */
  predicate Wildcard(net: Net, call: SipCall, t: Trunk) {
    Admits(net, call, t) && t.numbers == []
  }

  function IsListed(net: Net, call: SipCall): Trunk -> bool {
    t => Listed(net, call, t)
  }

  function IsWildcard(net: Net, call: SipCall): Trunk -> bool {
    t => Wildcard(net, call, t)
  }

  /** A single listed trunk wins, then a single wildcard; more than one is an error. */
  function Decide(listed: seq<Trunk>, wild: seq<Trunk>): Result<Option<Trunk>> {
    if |listed| > 1 then MultipleTrunks
    else if |listed| == 1 then Ok(Some(listed[0]))
    else if |wild| > 1 then MultipleDefaults
    else if |wild| == 1 then Ok(Some(wild[0]))
    else Ok(None)
  }

  function Matched(net: Net, trunks: seq<Trunk>, call: SipCall): Result<Option<Trunk>> {
    Decide(Filter(IsListed(net, call), trunks), Filter(IsWildcard(net, call), trunks))
  }

  method ListsNumber(numbers: seq<string>, to: string) returns (found: bool)
    ensures found <==> exists n | n in numbers :: SameNumber(n, to)
  {
    var norm := Normalize(to);
    for i := 0 to |numbers|
      invariant forall n | n in numbers[..i] :: !SameNumber(n, to)
    {
      if numbers[i] == to || Normalize(numbers[i]) == norm {
        assert numbers[i] in numbers;
        return true;
      }
    }
    assert numbers[..|numbers|] == numbers;
    return false;
  }

  method MatchNumbers(num: string, allowed: seq<string>) returns (ok: bool)
    ensures ok == NumberAllowed(num, allowed)
  {
    if allowed == [] {
      return true;
    }
    var norm := Normalize(num);
    for i := 0 to |allowed|
      invariant forall a | a in allowed[..i] :: !SameNumber(num, a)
    {
      if num == allowed[i] || norm == Normalize(allowed[i]) {
        assert allowed[i] in allowed;
        return true;
      }
    }
    assert allowed[..|allowed|] == allowed;
    return false;
  }

  /** Malformed masks are dropped first; without any left every source is allowed. */
  method MatchAddresses(net: Net, ip: string, host: string, masks: seq<string>) returns (ok: bool)
    ensures ok == AddressAllowed(net, ip, host, masks)
  {
    if !net.isIp(ip) {
      return true;
    }
    var valid := Filter(ValidMask, masks);
    forall m | true
      ensures m in valid <==> m in masks && ValidMask(m)
    {
      FilterMember(ValidMask, masks, m);
    }
    if valid == [] {
      return true;
    }
    assert valid[0] in valid;
    for i := 0 to |valid|
      invariant forall m | m in valid[..i] :: m != host && !net.covers(ip, m)
    {
      if valid[i] == host || net.covers(ip, valid[i]) {
        assert valid[i] in valid;
        return true;
      }
      assert valid[..i + 1] == valid[..i] + [valid[i]];
    }
    assert valid[..|valid|] == valid;
    return false;
  }

  /** How one trunk takes the call. */
  method Classify(net: Net, call: SipCall, t: Trunk) returns (listed: bool, wild: bool)
    ensures listed == Listed(net, call, t) && wild == Wildcard(net, call, t) && !(listed && wild)
  {
    listed, wild := false, false;
    var numberOk := MatchNumbers(call.fromUser, t.allowedNumbers);
    var addressOk := MatchAddresses(net, call.sourceIp, call.fromHost, t.allowedAddresses);
    if numberOk && addressOk {
      if t.numbers == [] {
        wild := true;
      } else {
        listed := ListsNumber(t.numbers, call.toUser);
      }
    }
  }

  /** What the loop keeps of the trunks seen so far. */
  predicate Tracks(selected: Option<Trunk>, wildcard: Option<Trunk>, count: nat, listed: seq<Trunk>, wild: seq<Trunk>) {
    (listed == if selected.None? then [] else [selected.value])
    && count == |wild| && wildcard == if wild == [] then None else Some(wild[|wild| - 1])
  }

  method Conclude(selected: Option<Trunk>, wildcard: Option<Trunk>, count: nat,
                  ghost listed: seq<Trunk>, ghost wild: seq<Trunk>) returns (r: Result<Option<Trunk>>)
    requires Tracks(selected, wildcard, count, listed, wild)
    ensures r == Decide(listed, wild)
  {
    if selected.Some? {
      return Ok(selected);
    }
    if count > 1 {
      return MultipleDefaults;
    }
    return Ok(wildcard);
  }

  method MatchTrunk(net: Net, trunks: seq<Trunk>, call: SipCall) returns (r: Result<Option<Trunk>>)
    ensures r == Matched(net, trunks, call)
  {
    var selected: Option<Trunk> := None;
    var wildcard: Option<Trunk> := None;
    var count := 0;
    ghost var p, q := IsListed(net, call), IsWildcard(net, call);
    for i := 0 to |trunks|
      invariant Tracks(selected, wildcard, count, Filter(p, trunks[..i]), Filter(q, trunks[..i]))
    {
      FilterStep(p, trunks, i);
      FilterStep(q, trunks, i);
      var listed, wild := Classify(net, call, trunks[i]);
      if wild {
        count := count + 1;
        wildcard := Some(trunks[i]);
      } else if listed {
        if selected.Some? {
          FilterGrows(p, trunks, i + 1);
          return MultipleTrunks;
        }
        selected := Some(trunks[i]);
      }
    }
    assert trunks[..|trunks|] == trunks;
    r := Conclude(selected, wildcard, count, Filter(p, trunks), Filter(q, trunks));
  }

  lemma {:induction false} FilterGrows(p: Trunk -> bool, s: seq<Trunk>, i: nat)
    requires i <= |s|
    ensures |Filter(p, s[..i])| <= |Filter(p, s)|
    decreases |s| - i
  {
    if i == |s| {
      assert s[..i] == s;
    } else {
      FilterStep(p, s, i);
      FilterGrows(p, s, i + 1);
    }
  }

  /** The outcome, error or trunk, does not depend on the order of the list. */
  lemma TrunkOrderDoesNotMatter(net: Net, a: seq<Trunk>, b: seq<Trunk>, call: SipCall)
    requires Reordered(a, b)
    ensures Matched(net, a, call) == Matched(net, b, call)
  {
    FilterReordered(IsListed(net, call), a, b);
    FilterReordered(IsWildcard(net, call), a, b);
    ReorderedLength(Filter(IsListed(net, call), a), Filter(IsListed(net, call), b));
    ReorderedLength(Filter(IsWildcard(net, call), a), Filter(IsWildcard(net, call), b));
  }

  // -------------------------------------------------------------------------
  // Successive calls on one store
  // -------------------------------------------------------------------------

  type Store = map<string, Trunk>

  function Id(): Trunk -> string {
    (t: Trunk) => t.id
  }

  /** Loads the trunk by id and checks it, else matches the store's whole list. */
  function MatchedFor(net: Net, store: Store, list: seq<Trunk>, id: string, call: SipCall): Result<Option<Trunk>> {
    if id != "" && id in store then
      match Matched(net, [store[id]], call)
      case Ok(Some(_)) => Ok(Some(store[id]))
      case Ok(None) => Matched(net, list, call)
      case error => error
    else Matched(net, list, call)
  }

  lemma {:induction false} MatchedQualifies(net: Net, s: seq<Trunk>, call: SipCall, t: Trunk)
    requires Matched(net, s, call) == Ok(Some(t))
    ensures t in s && (Listed(net, call, t) || Wildcard(net, call, t))
  {
    FilterMember(IsListed(net, call), s, t);
    FilterMember(IsWildcard(net, call), s, t);
  }

  lemma MatchedAlone(net: Net, call: SipCall, t: Trunk)
    ensures Matched(net, [t], call)
         == if Listed(net, call, t) || Wildcard(net, call, t) then Ok(Some(t)) else Ok(None)
  {
    FilterStep(IsListed(net, call), [t], 0);
    FilterStep(IsWildcard(net, call), [t], 0);
    assert [t][..1] == [t] && [t][..0] == [];
  }

  /** The trunk found for authentication is the one a later dispatch call finds
      by its id, whatever order the store lists its trunks in each time. */
  lemma DispatchFindsAuthenticatedTrunk(
    net: Net, store: Store, first: seq<Trunk>, second: seq<Trunk>, call: SipCall, t: Trunk)
    requires IsListing(first, store, Id()) && IsListing(second, store, Id())
    requires MatchedFor(net, store, first, "", call) == Ok(Some(t))
    ensures MatchedFor(net, store, second, t.id, call) == Ok(Some(t))
  {
    MatchedQualifies(net, first, call, t);
    MatchedAlone(net, call, t);
    ListingsReordered(first, second, store, Id());
    TrunkOrderDoesNotMatter(net, first, second, call);
    assert Id()(t) in store && store[Id()(t)] == t;
  }

  /** Looking up by id is stricter only for ids the store holds: an id that is
      unknown, or whose trunk does not take the call, falls back to the list. */
  lemma OtherIdsFallBack(net: Net, store: Store, list: seq<Trunk>, id: string, call: SipCall)
    ensures MatchedFor(net, store, list, id, call)
         == if id != "" && id in store && (Listed(net, call, store[id]) || Wildcard(net, call, store[id]))
            then Ok(Some(store[id])) else Matched(net, list, call)
  {
    if id in store {
      MatchedAlone(net, call, store[id]);
    }
  }
}

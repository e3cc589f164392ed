/** Per-track sample queues drained into mixed frames. */
module Mixer {
  import opened Common

  predicate AllI16(s: seq<int>) {
    forall x | x in s :: IsI16(x)
  }

  /** Division that rounds toward zero. */
  function Quot(a: int, n: int): int
    requires n > 0
  {
    if a >= 0 then a / n else -(-a / n)
  }

  function Clamp(n: int): int {
    if n < I16_MIN then I16_MIN else if n > I16_MAX then I16_MAX else n
  }

  type Tracks = map<string, seq<int>>

  /** A queued sample, or silence past the end of the queue. */
  function At(q: seq<int>, i: nat): int {
    if i < |q| then q[i] else 0
  }

  function Rest(q: seq<int>, n: nat): seq<int> {
    if n <= |q| then q[n..] else []
  }

  function Count(tracks: Tracks): nat {
    if |tracks| == 0 then 1 else |tracks|
  }

  // -------------------------------------------------------------------------
  // Sums over tracks, in no particular order
  // -------------------------------------------------------------------------

  ghost function SumOver(ks: set<string>, f: string -> int): int {
    if ks == {} then 0 else var k :| k in ks; f(k) + SumOver(ks - {k}, f)
  }

  lemma {:induction false} SumTake(ks: set<string>, k: string, f: string -> int)
    requires k in ks
    ensures SumOver(ks, f) == f(k) + SumOver(ks - {k}, f)
  {
    var j :| j in ks && SumOver(ks, f) == f(j) + SumOver(ks - {j}, f);
    if j != k {
      SumTake(ks - {j}, k, f);
      SumTake(ks - {k}, j, f);
      assert ks - {j} - {k} == ks - {k} - {j};
    }
  }

  lemma SumAdd(ks: set<string>, k: string, f: string -> int)
    requires k !in ks
    ensures SumOver(ks + {k}, f) == SumOver(ks, f) + f(k)
  {
    SumTake(ks + {k}, k, f);
    assert ks + {k} - {k} == ks;
  }

  lemma {:induction false} SumBounds(ks: set<string>, f: string -> int, lo: int, hi: int)
    requires forall k | k in ks :: lo <= f(k) <= hi
    ensures |ks| * lo <= SumOver(ks, f) <= |ks| * hi
  {
    if ks == {} {
    } else {
      var k :| k in ks;
      SumTake(ks, k, f);
      SumBounds(ks - {k}, f, lo, hi);
      Peel(|ks|, lo);
      Peel(|ks|, hi);
    }
  }

  lemma Peel(n: int, x: int)
    ensures n * x == (n - 1) * x + x
  {
  }

  /** What each track adds to slot `i`. */
  ghost function Shares(tracks: Tracks, c: nat, i: nat): string -> int
    requires c > 0
  {
    k => if k in tracks then Quot(At(tracks[k], i), c) else 0
  }

  /** Slot `i` of the mixed frame, without clamping. */
  ghost function MixAt(tracks: Tracks, i: nat): int {
    SumOver(tracks.Keys, Shares(tracks, Count(tracks), i))
  }

  // -------------------------------------------------------------------------
  // The clamp never acts
  // -------------------------------------------------------------------------

  predicate Valid(tracks: Tracks) {
    forall k | k in tracks :: AllI16(tracks[k])
  }

  lemma QuotBounds(x: int, c: int)
    requires c > 0 && IsI16(x)
    ensures -(32768 / c) <= Quot(x, c) <= 32767 / c
  {
    if x >= 0 {
      QuotMonotone(x, 32767, c);
    } else {
      QuotMonotone(-x, 32768, c);
      QuotMonotone(0, 32767, c);
    }
  }

  lemma QuotMonotone(a: nat, b: nat, c: int)
    requires c > 0 && a <= b
    ensures 0 <= a / c <= b / c
  {
    if a / c > b / c {
      Scaled(b / c + 1, a / c, c);
    }
  }

  lemma Scaled(a: int, b: int, c: int)
    requires a <= b && c >= 0
    ensures a * c <= b * c
  {
  }

  /** The sum over any part of the tracks fits in 16 bits. */
  lemma PartialSumFits(tracks: Tracks, ks: set<string>, i: nat)
    requires Valid(tracks) && ks <= tracks.Keys
    ensures IsI16(SumOver(ks, Shares(tracks, Count(tracks), i)))
  {
    var c := Count(tracks);
    var f := Shares(tracks, c, i);
    forall k | k in ks
      ensures -(32768 / c) <= f(k) <= 32767 / c
    {
      assert i < |tracks[k]| ==> tracks[k][i] in tracks[k];
      QuotBounds(At(tracks[k], i), c);
    }
    SumBounds(ks, f, -(32768 / c), 32767 / c);
    PartIsSmaller(ks, tracks.Keys);
    FitsTimes(|ks|, c, 32767);
    FitsTimes(|ks|, c, 32768);
  }

  lemma PartIsSmaller(a: set<string>, b: set<string>)
    requires a <= b
    ensures |a| <= |b|
  {
    assert b == a + (b - a);
    assert |b| == |a| + |b - a|;
  }

  lemma FitsTimes(n: nat, c: nat, x: nat)
    requires n <= c && c > 0
    ensures 0 <= n * (x / c) <= x && n * -(x / c) == -(n * (x / c))
  {
    Scaled(n, c, x / c);
  }

  // -------------------------------------------------------------------------
  // The mixer
  // -------------------------------------------------------------------------

  const SILENT_MS := 5000

  function Pushed(tracks: Tracks, cid: string, pcm: seq<int>): Tracks {
    tracks[cid := (if cid in tracks then tracks[cid] else []) + pcm]
  }

  function Stale(lastPacket: map<string, int>, now: int): set<string> {
    set k | k in lastPacket && now - lastPacket[k] > SILENT_MS
  }

  function Shortened(tracks: Tracks, n: nat): Tracks {
    map k | k in tracks :: Rest(tracks[k], n)
  }

  ghost function Mixed(tracks: Tracks, len: nat): seq<int> {
    seq(len, i requires 0 <= i < len => MixAt(tracks, i))
  }

  /** The length of the longest queue, 0 without tracks. */
  ghost function Longest(tracks: Tracks): (n: nat)
    ensures forall k | k in tracks :: |tracks[k]| <= n
    ensures n == 0 || exists k | k in tracks :: |tracks[k]| == n
    decreases |tracks|
  {
    if |tracks| == 0 then 0
    else
      var k :| k in tracks;
      var others := tracks - {k};
      assert forall j | j in tracks :: j == k || (j in others && others[j] == tracks[j]);
      var n := Longest(others);
      if |tracks[k]| > n then |tracks[k]| else n
  }

  lemma LongestIs(tracks: Tracks, n: nat)
    requires forall k | k in tracks :: |tracks[k]| <= n
    requires n == 0 || exists k | k in tracks :: |tracks[k]| == n
    ensures Longest(tracks) == n
  {
  }

  /** The frame holds the sum over the tracks added so far. */
  ghost predicate Holds(b: seq<int>, tracks: Tracks, added: set<string>) {
    forall i | 0 <= i < |b| :: b[i] == SumOver(added, Shares(tracks, Count(tracks), i))
  }

  /** Tracks not in `todo` have given up their first `len` samples. */
  ghost predicate Drained(tracks: Tracks, before: Tracks, todo: set<string>, len: nat) {
    tracks.Keys == before.Keys
    && forall k | k in before :: tracks[k] == if k in todo then before[k] else Rest(before[k], len)
  }

  lemma SlotsFit(b: seq<int>, tracks: Tracks, added: set<string>, k: string)
    requires Valid(tracks) && Holds(b, tracks, added)
    requires added <= tracks.Keys && k in tracks && k !in added
    ensures forall i | 0 <= i < |b| :: IsI16(b[i] + Quot(At(tracks[k], i), Count(tracks)))
  {
    forall i | 0 <= i < |b|
      ensures IsI16(b[i] + Quot(At(tracks[k], i), Count(tracks)))
    {
      PartialSumFits(tracks, added + {k}, i);
      SumAdd(added, k, Shares(tracks, Count(tracks), i));
    }
  }

  lemma AllAdded(b: seq<int>, tracks: Tracks)
    requires Holds(b, tracks, tracks.Keys)
    ensures b == Mixed(tracks, |b|)
  {
  }

  lemma NextTrack(b: seq<int>, b': seq<int>, tracks: Tracks, added: set<string>, k: string)
    requires Holds(b, tracks, added) && k in tracks && k !in added && |b'| == |b|
    requires forall i | 0 <= i < |b| :: b'[i] == b[i] + Quot(At(tracks[k], i), Count(tracks))
    ensures Holds(b', tracks, added + {k})
  {
    forall i | 0 <= i < |b|
      ensures b'[i] == SumOver(added + {k}, Shares(tracks, Count(tracks), i))
    {
      SumAdd(added, k, Shares(tracks, Count(tracks), i));
    }
  }

  /** Adds one track into the frame, popping its samples. */
  method AddTrack(frame: array<int>, q: seq<int>, c: nat) returns (rest: seq<int>)
    requires c > 0
    requires forall i | 0 <= i < frame.Length :: IsI16(frame[i] + Quot(At(q, i), c))
    modifies frame
    ensures rest == Rest(q, frame.Length)
    ensures forall i | 0 <= i < frame.Length :: frame[i] == old(frame[i]) + Quot(At(q, i), c)
  {
    rest := q;
    for i := 0 to frame.Length
      invariant rest == Rest(q, i)
      invariant forall j | 0 <= j < i :: frame[j] == old(frame[j]) + Quot(At(q, j), c)
      invariant forall j | i <= j < frame.Length :: frame[j] == old(frame[j])
    {
      var s := 0;
      if rest != [] {
        s := rest[0];
        rest := rest[1..];
      }
      assert s == At(q, i);
      frame[i] := Clamp(frame[i] + Quot(s, c));
    }
  }

  /** The same, in terms of the sum so far. */
  method AddShare(frame: array<int>, tracks: Tracks, ghost added: set<string>, k: string, c: nat) returns (rest: seq<int>)
    requires Valid(tracks) && c == Count(tracks) && Holds(frame[..], tracks, added)
    requires added <= tracks.Keys && k in tracks && k !in added
    modifies frame
    ensures rest == Rest(tracks[k], frame.Length) && Holds(frame[..], tracks, added + {k})
  {
    ghost var b := frame[..];
    SlotsFit(b, tracks, added, k);
    rest := AddTrack(frame, tracks[k], c);
    NextTrack(b, frame[..], tracks, added, k);
  }

  class Mixer {
    var tracks: Tracks
    var lastPacket: map<string, int>

    predicate Ok()
      reads this
    {
      Valid(tracks) && tracks.Keys == lastPacket.Keys
    }

    constructor ()
      ensures Ok() && tracks == map[]
    {
      tracks, lastPacket := map[], map[];
    }

    method Push(cid: string, pcm: seq<int>, now: int)
      requires Ok() && AllI16(pcm)
      modifies this
      ensures Ok()
      ensures tracks == Pushed(old(tracks), cid, pcm)
      ensures lastPacket == old(lastPacket)[cid := now]
    {
      var q := if cid in tracks then tracks[cid] else [];
      tracks := tracks[cid := q + pcm];
      lastPacket := lastPacket[cid := now];
    }

    /** Drops tracks silent for too long and says which. */
    method PruneStale(now: int) returns (stale: set<string>)
      requires Ok()
      modifies this
      ensures Ok()
      ensures stale == Stale(old(lastPacket), now)
      ensures tracks == old(tracks) - stale && lastPacket == old(lastPacket) - stale
    {
      stale := set k | k in lastPacket && now - lastPacket[k] > SILENT_MS;
      var todo := stale;
      while todo != {}
        invariant todo <= stale
        invariant tracks == old(tracks) - (stale - todo)
        invariant lastPacket == old(lastPacket) - (stale - todo)
      {
        var cid :| cid in todo;
        tracks := tracks - {cid};
        lastPacket := lastPacket - {cid};
        todo := todo - {cid};
      }
    }

    /** The length of the longest queue. */
    method Available() returns (n: nat)
      ensures n == Longest(tracks)
    {
      n := 0;
      var todo := tracks.Keys;
      while todo != {}
        invariant todo <= tracks.Keys
        invariant forall k | k in tracks && k !in todo :: |tracks[k]| <= n
        invariant n == 0 || exists k | k in tracks :: |tracks[k]| == n
      {
        var k :| k in todo;
        if |tracks[k]| > n {
          n := |tracks[k]|;
        }
        todo := todo - {k};
      }
      LongestIs(tracks, n);
    }

    method ReadFrame(len: nat) returns (frame: seq<int>)
      requires Ok()
      modifies this
      ensures Ok() && lastPacket == old(lastPacket)
      ensures tracks == Shortened(old(tracks), len)
      ensures frame == Mixed(old(tracks), len)
    {
      tracks, frame := MixTracks(tracks, len);
    }
  }

  /** Tracks are visited in any order; the frame does not depend on it. */
  method MixTracks(before: Tracks, len: nat) returns (tracks: Tracks, frame: seq<int>)
    requires Valid(before)
    ensures Valid(tracks) && tracks == Shortened(before, len)
    ensures frame == Mixed(before, len)
  {
    var buffer := new int[len](_ => 0);
    tracks := before;
    var c := Count(tracks);
    var todo := tracks.Keys;
    while todo != {}
      invariant todo <= before.Keys && buffer.Length == len
      invariant Drained(tracks, before, todo, len)
      invariant Holds(buffer[..], before, before.Keys - todo)
    {
      var k :| k in todo;
      var rest := AddShare(buffer, before, before.Keys - todo, k, c);
      tracks := tracks[k := rest];
      assert before.Keys - (todo - {k}) == before.Keys - todo + {k};
      todo := todo - {k};
    }
    frame := buffer[..];
    assert before.Keys - todo == before.Keys;
    AllAdded(frame, before);
  }

  // -------------------------------------------------------------------------
  // The plain average of frames, and how far the mixer is from it
  // -------------------------------------------------------------------------

  function SumAt(frames: seq<seq<int>>, i: nat): int {
    if frames == [] then 0 else SumAt(frames[..|frames| - 1], i) + At(frames[|frames| - 1], i)
  }

  function MaxLength(frames: seq<seq<int>>): (n: nat)
    ensures forall f | f in frames :: |f| <= n
    ensures n == 0 || exists f | f in frames :: |f| == n
  {
    if frames == [] then 0
    else
      var n, f := MaxLength(frames[..|frames| - 1]), frames[|frames| - 1];
      if |f| > n then |f| else n
  }

  lemma {:induction false} SumAtBounds(frames: seq<seq<int>>, i: nat)
    requires forall f | f in frames :: AllI16(f)
    ensures |frames| * -32768 <= SumAt(frames, i) <= |frames| * 32767
  {
    if frames == [] {
    } else {
      var f := frames[|frames| - 1];
      SumAtBounds(frames[..|frames| - 1], i);
      assert f in frames && (i < |f| ==> f[i] in f);
    }
  }

  /** The source adds up in 32 bits. */
  predicate IsI32(n: int) {
    I32_MIN <= n <= I32_MAX
  }

  function Copies(n: nat, f: seq<int>): (frames: seq<seq<int>>)
    ensures |frames| == n && forall g | g in frames :: g == f
  {
    if n == 0 then [] else Copies(n - 1, f) + [f]
  }

  lemma {:induction false} SumOfCopies(n: nat, f: seq<int>, i: nat)
    ensures SumAt(Copies(n, f), i) == n * At(f, i)
  {
    if n == 0 {
    } else {
      SumOfCopies(n - 1, f, i);
      assert Copies(n, f)[..n - 1] == Copies(n - 1, f);
    }
  }

  /** Every sum of `n` samples fits 32 bits exactly up to 65536 of them. */
  lemma SumFitsIff(n: nat)
    ensures (forall frames: seq<seq<int>>, i: nat | |frames| == n && (forall f | f in frames :: AllI16(f)) ::
               IsI32(SumAt(frames, i)))
       <==> n <= 65536
  {
    if n <= 65536 {
      forall frames: seq<seq<int>>, i: nat | |frames| == n && (forall f | f in frames :: AllI16(f))
        ensures IsI32(SumAt(frames, i))
      {
        SumAtBounds(frames, i);
      }
    } else {
      var quiet := [I16_MIN];
      SumOfCopies(n, quiet, 0);
      assert AllI16(quiet);
      assert !IsI32(SumAt(Copies(n, quiet), 0));
    }
  }

  /** A sum cut to 32 bits in two's complement. */
  function Wrap32(n: int): (w: int)
    ensures IsI32(w) && (IsI32(n) ==> w == n)
  {
    (n - I32_MIN) % U32 + I32_MIN
  }

  /** Cutting after every addition is cutting once at the end. */
  lemma WrapAdds(a: int, b: int)
    ensures Wrap32(Wrap32(a) + b) == Wrap32(a + b)
  {
  }

  /** Up to 65536 frames nothing is cut, above that the quotient is small, so the
      clamp never acts. */
  lemma WrappedAverageFits(frames: seq<seq<int>>, i: nat)
    requires frames != [] && forall f | f in frames :: AllI16(f)
    ensures IsI16(Quot(Wrap32(SumAt(frames, i)), |frames|))
    ensures |frames| <= 65536 ==> Wrap32(SumAt(frames, i)) == SumAt(frames, i)
  {
    var sum, c := SumAt(frames, i), |frames|;
    SumAtBounds(frames, i);
    if c <= 65536 {
      AverageFits(sum, c);
    } else {
      AverageFits(Wrap32(sum), c);
    }
  }

  lemma AverageFits(sum: int, c: int)
    requires c > 0 && c * -32769 < sum < c * 32768
    ensures IsI16(Quot(sum, c))
  {
    QuotRemainder(sum, c);
    var q := Quot(sum, c);
    if q > 32767 {
      Scaled(32768, q, c);
    } else if q < -32768 {
      Scaled(q, -32769, c);
    }
  }

  /** The remainder of division toward zero has the sign of the dividend. */
  lemma QuotRemainder(x: int, c: int)
    requires c > 0
    ensures var r := x - Quot(x, c) * c; -c < r < c && (x >= 0 ==> r >= 0) && (x <= 0 ==> r <= 0)
  {
    if x < 0 {
      var y := -x;
      assert y == y / c * c + y % c;
      assert Quot(x, c) * c == -(y / c * c);
    } else {
      assert x == x / c * c + x % c;
    }
  }

  method LongestFrame(frames: seq<seq<int>>) returns (len: nat)
    ensures len == MaxLength(frames)
  {
    len := 0;
    for j := 0 to |frames|
      invariant len == MaxLength(frames[..j])
    {
      assert frames[..j + 1][..j] == frames[..j];
      len := if |frames[j]| > len then |frames[j]| else len;
    }
    assert frames[..|frames|] == frames;
  }

  method AverageSlot(frames: seq<seq<int>>, i: nat) returns (v: int)
    requires frames != [] && forall f | f in frames :: AllI16(f)
    ensures v == Quot(Wrap32(SumAt(frames, i)), |frames|)
  {
    var sum := 0;
    for j := 0 to |frames|
      invariant sum == Wrap32(SumAt(frames[..j], i))
    {
      assert frames[..j + 1][..j] == frames[..j];
      WrapAdds(SumAt(frames[..j], i), At(frames[j], i));
      sum := Wrap32(sum + At(frames[j], i));
    }
    assert frames[..|frames|] == frames;
    WrappedAverageFits(frames, i);
    v := Clamp(Quot(sum, |frames|));
  }

  /** The clamp never acts here either. */
  method MixFrames(frames: seq<seq<int>>) returns (out: seq<int>)
    requires forall f | f in frames :: AllI16(f)
    ensures |out| == MaxLength(frames)
    ensures forall i | 0 <= i < |out| :: out[i] == Quot(Wrap32(SumAt(frames, i)), |frames|)
    ensures |frames| <= 65536 ==> forall i | 0 <= i < |out| :: out[i] == Quot(SumAt(frames, i), |frames|)
  {
    var len := LongestFrame(frames);
    if len == 0 {
      return [];
    }
    var buffer := new int[len](_ => 0);
    for i := 0 to len
      invariant forall k | 0 <= k < i :: buffer[k] == Quot(Wrap32(SumAt(frames, k)), |frames|)
    {
      var v := AverageSlot(frames, i);
      buffer[i] := v;
    }
    out := buffer[..];
    forall i | 0 <= i < |out|
      ensures |frames| <= 65536 ==> Wrap32(SumAt(frames, i)) == SumAt(frames, i)
    {
      WrappedAverageFits(frames, i);
    }
  }

  predicate Distinct(order: seq<string>) {
    forall i, j | 0 <= i < j < |order| :: order[i] != order[j]
  }

  /** The queues in some order of the tracks. */
  predicate InOrder(frames: seq<seq<int>>, tracks: Tracks, order: seq<string>) {
    |frames| == |order| && Distinct(order)
    && forall j | 0 <= j < |order| :: order[j] in tracks && frames[j] == tracks[order[j]]
  }

  function SetOf(order: seq<string>): set<string> {
    set k | k in order
  }

  /** The rounding lost over part of the tracks. */
  lemma {:induction false} RoundingLoss(frames: seq<seq<int>>, tracks: Tracks, order: seq<string>, c: nat, i: nat)
    requires c > 0 && InOrder(frames, tracks, order)
    ensures var loss := SumAt(frames, i) - SumOver(SetOf(order), Shares(tracks, c, i)) * c;
            -(|order| * (c - 1)) <= loss <= |order| * (c - 1)
  {
    var f := Shares(tracks, c, i);
    if order == [] {
    } else {
      var n := |order| - 1;
      var before, k := order[..n], order[n];
      RoundingLoss(frames[..n], tracks, before, c, i);
      assert SetOf(order) == SetOf(before) + {k};
      SumAdd(SetOf(before), k, f);
      AddLoss(SumAt(frames[..n], i), SumOver(SetOf(before), f), At(tracks[k], i), c, n);
    }
  }

  lemma AddLoss(sum: int, shares: int, x: int, c: int, n: nat)
    requires c > 0 && -(n * (c - 1)) <= sum - shares * c <= n * (c - 1)
    ensures var loss := sum + x - (shares + Quot(x, c)) * c; -((n + 1) * (c - 1)) <= loss <= (n + 1) * (c - 1)
  {
    QuotRemainder(x, c);
    Distribute(shares, Quot(x, c), c);
    Peel(n + 1, c - 1);
  }

  lemma Distribute(a: int, b: int, c: int)
    ensures (a + b) * c == a * c + b * c
  {
  }

  lemma CloseQuotients(p: int, q: int, sum: int, c: int)
    requires c > 0
    requires -(c * (c - 1)) <= sum - p * c <= c * (c - 1)
    requires -c < sum - q * c < c
    ensures -c < p - q < c
  {
    Distribute(p, -q, c);
    assert (p - q) * c == p * c - q * c;
    assert c * (c - 1) == c * c - c;
    if p - q >= c {
      Scaled(c, p - q, c);
    } else if p - q <= -c {
      Scaled(p - q, -c, c);
    }
  }

  /** A mixed sample differs from the average of the same tracks by less than
      the number of tracks. */
  lemma MixIsNearAverage(tracks: Tracks, order: seq<string>, frames: seq<seq<int>>, i: nat)
    requires tracks != map[] && InOrder(frames, tracks, order) && SetOf(order) == tracks.Keys
    ensures |order| == |tracks|
    ensures -|tracks| < MixAt(tracks, i) - Quot(SumAt(frames, i), |frames|) < |tracks|
  {
    DistinctSize(order);
    RoundingLoss(frames, tracks, order, |tracks|, i);
    QuotRemainder(SumAt(frames, i), |tracks|);
    CloseQuotients(MixAt(tracks, i), Quot(SumAt(frames, i), |frames|), SumAt(frames, i), |tracks|);
  }

  lemma {:induction false} DistinctSize(order: seq<string>)
    requires Distinct(order)
    ensures |SetOf(order)| == |order|
  {
    if order == [] {
    } else {
      var before, k := order[..|order| - 1], order[|order| - 1];
      DistinctSize(before);
      assert SetOf(order) == SetOf(before) + {k};
    }
  }
}

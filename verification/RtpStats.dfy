/** The per-track RTP estimator: loss and reordering from wrapping 16-bit
    sequence numbers, and the interarrival jitter of section 6.4.1 of RFC 3550. */
module RtpEstimator {
  import opened Common

  const WRAP := 0x10000
  const HALF := 0x8000

  function WrappingSub16(a: int, b: int): nat {
    (a - b) % WRAP
  }

  /** The loss counters. */
  datatype Loss = Loss(packets: nat, expected: nat, lost: nat, outOfOrder: nat, maxSeq: Option<nat>)

  const FRESH := Loss(0, 0, 0, 0, None)

  function Observed(s: Loss, sn: nat): Loss {
    match s.maxSeq
    case None => s.(packets := s.packets + 1, maxSeq := Some(sn), expected := 1)
    case Some(max) =>
      var t := s.(packets := s.packets + 1);
      var behind, gap := WrappingSub16(max, sn), WrappingSub16(sn, max);
      if 0 < behind < HALF then
        t.(outOfOrder := s.outOfOrder + 1, expected := s.expected + 1, lost := if s.lost > 0 then s.lost - 1 else 0)
      else if 0 < gap < HALF then
        t.(expected := s.expected + gap, lost := s.lost + gap - 1, maxSeq := Some(sn))
      else t.(expected := s.expected + 1)
  }

  function Feed(sns: seq<nat>): Loss {
    if sns == [] then FRESH else Observed(Feed(sns[..|sns| - 1]), sns[|sns| - 1])
  }

  class RtpStats {
    var packets: nat
    var expected: nat
    var lost: nat
    var outOfOrder: nat
    var jitterTs: real
    var maxSeq: Option<nat>
    var lastRtpTs: Option<nat>
    var lastArrivalMs: Option<int>

    ghost function Counters(): Loss
      reads this
    {
      Loss(packets, expected, lost, outOfOrder, maxSeq)
    }

    constructor ()
      ensures Counters() == FRESH && jitterTs == 0.0 && lastRtpTs == None && lastArrivalMs == None
    {
      packets, expected, lost, outOfOrder := 0, 0, 0, 0;
      jitterTs := 0.0;
      maxSeq, lastRtpTs, lastArrivalMs := None, None, None;
    }

    /** Feeds one packet. The jitter moves a sixteenth of the way to the new deviation. */
    method Observe(sn: nat, rtpTs: nat, arrivalMs: int)
      requires sn < WRAP && rtpTs < 0x1_0000_0000
      modifies this
      ensures Counters() == Observed(old(Counters()), sn)
      ensures lastRtpTs == Some(rtpTs) && lastArrivalMs == Some(arrivalMs)
      ensures old(lastRtpTs == None || lastArrivalMs == None) ==> jitterTs == old(jitterTs)
      ensures old(lastRtpTs.Some? && lastArrivalMs.Some?) ==>
                var d := Deviation(old(lastRtpTs).value, old(lastArrivalMs).value, rtpTs, arrivalMs);
                16.0 * jitterTs == 15.0 * old(jitterTs) + d as real
    {
      packets := packets + 1;
      match maxSeq {
        case None =>
          maxSeq := Some(sn);
          expected := 1;
        case Some(max) =>
          var behind := WrappingSub16(max, sn);
          if 0 < behind < HALF {
            outOfOrder := outOfOrder + 1;
            expected := expected + 1;
            if lost > 0 {
              lost := lost - 1;
            }
          } else {
            var gap := WrappingSub16(sn, max);
            if 0 < gap < HALF {
              expected := expected + gap;
              lost := lost + gap - 1;
              maxSeq := Some(sn);
            } else {
              expected := expected + 1;
            }
          }
      }
      if lastRtpTs.Some? && lastArrivalMs.Some? {
        var d := Deviation(lastRtpTs.value, lastArrivalMs.value, rtpTs, arrivalMs);
        jitterTs := jitterTs + (d as real - jitterTs) / 16.0;
      }
      lastRtpTs, lastArrivalMs := Some(rtpTs), Some(arrivalMs);
    }
  }

  /** |timestamp delta - 48 ticks per elapsed millisecond|, the delta wrapping at 32 bits. */
  function Deviation(prevTs: nat, prevMs: int, ts: nat, ms: int): nat {
    var d := (ts - prevTs) % 0x1_0000_0000 - (ms - prevMs) * 48;
    if d < 0 then -d else d
  }

  // -------------------------------------------------------------------------
  // Any stream at all
  // -------------------------------------------------------------------------

  /** Whatever is fed in, every expected packet is received, lost or was late. */
  lemma {:induction false} CountersBracket(sns: seq<nat>)
    ensures var s := Feed(sns);
            && s.packets == |sns| && (s.maxSeq == None <==> sns == [])
            && (sns == [] ==> s == FRESH)
            && s.packets + s.lost <= s.expected <= s.packets + s.lost + s.outOfOrder
  {
    if sns == [] {
    } else {
      CountersBracket(sns[..|sns| - 1]);
    }
  }

  // -------------------------------------------------------------------------
  // Streams of unwrapped sequence numbers
  // -------------------------------------------------------------------------

  function Max(xs: seq<int>): int
    requires xs != []
  {
    if |xs| == 1 then xs[0]
    else var m := Max(xs[..|xs| - 1]); if xs[|xs| - 1] > m then xs[|xs| - 1] else m
  }

  /** Distinct numbers, none before the first, each within half the number space
      of the highest so far. */
  ghost predicate Tame(xs: seq<int>) {
    && (forall i, j :: 0 <= i < j < |xs| ==> xs[i] != xs[j])
    && (forall i :: 0 < i < |xs| ==> xs[i] >= xs[0])
    && (forall i :: 0 < i < |xs| ==> -HALF < xs[i] - Max(xs[..i]) < HALF)
  }

  function Wrapped(xs: seq<int>): seq<nat> {
    seq(|xs|, i requires 0 <= i < |xs| => xs[i] % WRAP)
  }

  /** Packets that arrived after a later one. */
  function Late(xs: seq<int>): nat {
    if |xs| <= 1 then 0
    else Late(xs[..|xs| - 1]) + if xs[|xs| - 1] < Max(xs[..|xs| - 1]) then 1 else 0
  }

  ghost function Range(a: int, b: int): (r: set<int>)
    requires a <= b + 1
    ensures |r| == b - a + 1
    ensures forall k :: k in r <==> a <= k <= b
    decreases b - a + 1
  {
    if a > b then {} else Range(a, b - 1) + {b}
  }

  /** Numbers up to the highest that never arrived. */
  ghost function Missing(xs: seq<int>): set<int>
    requires xs != []
  {
    MaxBounds(xs);
    assert xs[0] <= Max(xs);
    set k | k in Range(xs[0], Max(xs)) && k !in xs
  }

  lemma {:induction false} MaxBounds(xs: seq<int>)
    requires xs != []
    ensures Max(xs) in xs && forall i :: 0 <= i < |xs| ==> xs[i] <= Max(xs)
  {
    if |xs| == 1 {
    } else {
      MaxBounds(xs[..|xs| - 1]);
    }
  }

  lemma {:induction false} SizeOfRest(all: set<int>, xs: seq<int>)
    requires forall i :: 0 <= i < |xs| ==> xs[i] in all
    requires forall i, j :: 0 <= i < j < |xs| ==> xs[i] != xs[j]
    ensures |set k | k in all && k !in xs| == |all| - |xs|
  {
    var rest := set k | k in all && k !in xs;
    if xs == [] {
      assert rest == all;
    } else {
      var ys, y := xs[..|xs| - 1], xs[|xs| - 1];
      SizeOfRest(all, ys);
      assert rest == (set k | k in all && k !in ys) - {y};
    }
  }

  /** The numbers seen and the numbers missing fill the span exactly. */
  lemma MissingSize(xs: seq<int>)
    requires xs != [] && Tame(xs)
    ensures |Missing(xs)| == Max(xs) - xs[0] + 1 - |xs|
  {
    MaxBounds(xs);
    SizeOfRest(Range(xs[0], Max(xs)), xs);
  }

  lemma WrappedLast(xs: seq<int>)
    requires xs != []
    ensures |Wrapped(xs)| == |xs|
    ensures Wrapped(xs)[..|xs| - 1] == Wrapped(xs[..|xs| - 1]) && Wrapped(xs)[|xs| - 1] == xs[|xs| - 1] % WRAP
  {
  }

  lemma ObserveAhead(s: Loss, max: int, x: int)
    requires s.maxSeq == Some(max % WRAP) && 0 < x - max < HALF
    ensures Observed(s, x % WRAP) == s.(packets := s.packets + 1, expected := s.expected + x - max,
                                        lost := s.lost + x - max - 1, maxSeq := Some(x % WRAP))
  {
    assert WrappingSub16(max % WRAP, x % WRAP) == max - x + WRAP;
    assert WrappingSub16(x % WRAP, max % WRAP) == x - max;
  }

  lemma ObserveBehind(s: Loss, max: int, x: int)
    requires s.maxSeq == Some(max % WRAP) && 0 < max - x < HALF && s.lost > 0
    ensures Observed(s, x % WRAP) == s.(packets := s.packets + 1, expected := s.expected + 1,
                                        outOfOrder := s.outOfOrder + 1, lost := s.lost - 1)
  {
    assert WrappingSub16(max % WRAP, x % WRAP) == max - x;
  }

  lemma TamePrefix(xs: seq<int>)
    requires |xs| > 1 && Tame(xs)
    ensures var ys, y := xs[..|xs| - 1], xs[|xs| - 1];
            && Tame(ys) && y != Max(ys) && -HALF < y - Max(ys) < HALF
            && (y < Max(ys) ==> y in Missing(ys))
  {
    var ys := xs[..|xs| - 1];
    assert forall i :: 0 < i < |ys| ==> ys[..i] == xs[..i];
    MaxBounds(ys);
  }

  /** The estimator's counters are those of the unwrapped stream. */
  ghost predicate Exact(xs: seq<int>)
    requires xs != [] && Tame(xs)
  {
    var s := Feed(Wrapped(xs));
    && s.maxSeq == Some(Max(xs) % WRAP)
    && s.lost == |Missing(xs)|
    && s.outOfOrder == Late(xs)
    && s.expected == Max(xs) - xs[0] + 1 + Late(xs)
  }

  lemma ExactAhead(xs: seq<int>)
    requires |xs| > 1 && Tame(xs) && Tame(xs[..|xs| - 1]) && Exact(xs[..|xs| - 1])
    requires var ys, y := xs[..|xs| - 1], xs[|xs| - 1]; 0 < y - Max(ys) < HALF
    ensures Exact(xs)
  {
    var ys, y := xs[..|xs| - 1], xs[|xs| - 1];
    WrappedLast(xs);
    MissingSize(xs);
    MissingSize(ys);
    ObserveAhead(Feed(Wrapped(ys)), Max(ys), y);
  }

  lemma ExactBehind(xs: seq<int>)
    requires |xs| > 1 && Tame(xs) && Tame(xs[..|xs| - 1]) && Exact(xs[..|xs| - 1])
    requires var ys, y := xs[..|xs| - 1], xs[|xs| - 1]; 0 < Max(ys) - y < HALF && y in Missing(ys)
    ensures Exact(xs)
  {
    var ys, y := xs[..|xs| - 1], xs[|xs| - 1];
    WrappedLast(xs);
    MissingSize(xs);
    MissingSize(ys);
    ObserveBehind(Feed(Wrapped(ys)), Max(ys), y);
  }

  /** On tame streams the 16-bit estimator is exact: its mark is the highest
      number, `lost` counts the missing ones, `outOfOrder` the late ones, and
      `expected` exceeds the span by the late ones. */
  lemma {:induction false} ExactOnTameStreams(xs: seq<int>)
    requires xs != [] && Tame(xs)
    ensures var s := Feed(Wrapped(xs));
            && s.maxSeq == Some(Max(xs) % WRAP)
            && s.lost == |Missing(xs)|
            && s.outOfOrder == Late(xs)
            && s.expected == Max(xs) - xs[0] + 1 + Late(xs)
  {
    WrappedLast(xs);
    MissingSize(xs);
    var ys, y := xs[..|xs| - 1], xs[|xs| - 1];
    if |xs| == 1 {
      assert Feed(Wrapped(ys)) == FRESH;
    } else {
      TamePrefix(xs);
      ExactOnTameStreams(ys);
      MissingSize(ys);
      if y > Max(ys) {
        ExactAhead(xs);
      } else {
        ExactBehind(xs);
      }
    }
  }

  /** The half-space bound is tight: a jump of exactly 2^15 is taken for a
      duplicate, so the mark stays behind and nothing counts as lost. */
  lemma HalfSpaceJumpIsMissed(first: nat)
    requires first < WRAP
    ensures var xs := [first, first + HALF]; var s := Feed(Wrapped(xs));
            s.maxSeq == Some(first) && s.lost == 0 && Max(xs) % WRAP != first
  {
    var xs := [first, first + HALF];
    WrappedLast(xs);
    assert xs[..1] == [first];
    WrappedLast([first]);
    assert [first][..0] == [];
    assert Feed(Wrapped([first])) == Observed(FRESH, first);
  }
}

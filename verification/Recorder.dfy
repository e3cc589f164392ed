/** A whole WAV recording: packets in, mixed frames out, nothing consumed twice. */
module Recorder {
  import opened Common
  import Lists
  import opened Mixer
  import Wav

  /** A packet, what its track's decoder made of it, and the two clock readings it
      is handled with: when its samples are pushed and when tracks are pruned. */
  datatype Packet = Packet(cid: string, decoded: Option<seq<int>>, pushed: int, pruned: int)

  predicate WellDecoded(packets: seq<Packet>) {
    forall p | p in packets && p.decoded.Some? :: AllI16(p.decoded.value)
  }

  const FRAME := 960

  /** One channel at 48 kHz. */
  function Mono(): Wav.Format {
    Wav.Format(1, 48000)
  }

  // -------------------------------------------------------------------------
  // The recording as a function of its packets
  // -------------------------------------------------------------------------

  /** `frames` holds what each frame took from each track, `fed` what each track
      received since it appeared, and `since` the frame count at that time. */
  datatype Rec = Rec(tracks: Tracks, last: map<string, int>, frames: seq<Tracks>, fed: Tracks, since: map<string, nat>)

  function Empty(): Rec {
    Rec(map[], map[], [], map[], map[])
  }

  function Take(q: seq<int>, n: nat): seq<int> {
    if n <= |q| then q[..n] else q
  }

  function Chunks(tracks: Tracks): Tracks {
    map k | k in tracks :: Take(tracks[k], FRAME)
  }

  function Feed(r: Rec, cid: string, pcm: seq<int>, now: int): Rec {
    r.(tracks := Pushed(r.tracks, cid, pcm),
       last := r.last[cid := now],
       fed := Pushed(r.fed, cid, pcm),
       since := if cid in r.since then r.since else r.since[cid := |r.frames|])
  }

  function Prune(r: Rec, now: int): Rec {
    var stale := Stale(r.last, now);
    r.(tracks := r.tracks - stale, last := r.last - stale, fed := r.fed - stale, since := r.since - stale)
  }

  function ReadOne(r: Rec): Rec {
    r.(tracks := Shortened(r.tracks, FRAME), frames := r.frames + [Chunks(r.tracks)])
  }

  /** Frames are read while any track can fill one. */
  ghost function Drain(r: Rec): Rec
    decreases Longest(r.tracks)
  {
    if Longest(r.tracks) < FRAME then r
    else
      ReadShortens(r.tracks);
      Drain(ReadOne(r))
  }

  ghost function OnPacket(r: Rec, p: Packet): Rec {
    if p.decoded.None? then r
    else Drain(Prune(Feed(r, p.cid, p.decoded.value, p.pushed), p.pruned))
  }

  ghost function Play(packets: seq<Packet>): Rec {
    if packets == [] then Empty() else OnPacket(Play(packets[..|packets| - 1]), packets[|packets| - 1])
  }

  lemma ReadShortens(tracks: Tracks)
    requires Longest(tracks) >= FRAME
    ensures Longest(Shortened(tracks, FRAME)) < Longest(tracks)
  {
  }

  // -------------------------------------------------------------------------
  // Each track's samples are consumed once and in order
  // -------------------------------------------------------------------------

  /** What the frames from `from` on took from a track. */
  function Taken(frames: seq<Tracks>, from: nat, k: string): seq<int> {
    if |frames| <= from then []
    else
      var before, f := Taken(frames[..|frames| - 1], from, k), frames[|frames| - 1];
      if k in f then before + f[k] else before
  }

  predicate Keyed(r: Rec) {
    r.tracks.Keys == r.last.Keys == r.fed.Keys == r.since.Keys && Valid(r.tracks)
  }

  /** Taken and still queued samples make up what the track was fed. */
  predicate Accounted(r: Rec, k: string)
    requires k in r.tracks && k in r.fed && k in r.since
  {
    r.since[k] <= |r.frames| && Taken(r.frames, r.since[k], k) + r.tracks[k] == r.fed[k]
  }

  predicate Inv(r: Rec) {
    Keyed(r) && forall k | k in r.tracks :: Accounted(r, k)
  }

  predicate Short(tracks: Tracks) {
    forall k | k in tracks :: |tracks[k]| < FRAME
  }

  lemma FeedKeeps(r: Rec, cid: string, pcm: seq<int>, now: int)
    requires Inv(r) && AllI16(pcm)
    ensures Inv(Feed(r, cid, pcm, now))
  {
    var t := Feed(r, cid, pcm, now);
    FeedKeyed(r, cid, pcm, now);
    forall k | k in t.tracks
      ensures Accounted(t, k)
    {
      if k in r.tracks {
        assert Accounted(r, k);
      }
      FeedAccounted(r, cid, pcm, now, k);
    }
  }

  lemma FeedKeyed(r: Rec, cid: string, pcm: seq<int>, now: int)
    requires Keyed(r) && AllI16(pcm)
    ensures Keyed(Feed(r, cid, pcm, now))
  {
  }

  lemma FeedAccounted(r: Rec, cid: string, pcm: seq<int>, now: int, k: string)
    requires Keyed(r) && AllI16(pcm) && (k in r.tracks ==> Accounted(r, k)) && (k in r.tracks || k == cid)
    ensures Keyed(Feed(r, cid, pcm, now)) && Accounted(Feed(r, cid, pcm, now), k)
  {
    FeedKeyed(r, cid, pcm, now);
    if k in r.tracks {
      Lists.Regroup(Taken(r.frames, r.since[k], k), r.tracks[k], pcm);
    }
  }

  lemma PruneKeeps(r: Rec, now: int)
    requires Inv(r)
    ensures Inv(Prune(r, now))
  {
    forall k | k in Prune(r, now).tracks
      ensures Accounted(Prune(r, now), k)
    {
      assert Accounted(r, k);
    }
  }

  lemma ReadKeeps(r: Rec)
    requires Inv(r)
    ensures Inv(ReadOne(r))
  {
    var t := ReadOne(r);
    forall k | k in t.tracks
      ensures Accounted(t, k)
    {
      assert Accounted(r, k);
      assert t.frames[..|r.frames|] == r.frames;
      var taken, q := Taken(r.frames, r.since[k], k), r.tracks[k];
      assert taken + Take(q, FRAME) + Rest(q, FRAME) == taken + q;
    }
  }

  lemma {:induction false} DrainKeeps(r: Rec)
    requires Inv(r)
    ensures Inv(Drain(r))
    decreases Longest(r.tracks)
  {
    if Longest(r.tracks) < FRAME {
    } else {
      ReadShortens(r.tracks);
      ReadKeeps(r);
      DrainKeeps(ReadOne(r));
    }
  }

  lemma {:induction false} DrainEmpties(r: Rec)
    ensures Short(Drain(r).tracks)
    decreases Longest(r.tracks)
  {
    if Longest(r.tracks) < FRAME {
    } else {
      ReadShortens(r.tracks);
      DrainEmpties(ReadOne(r));
    }
  }

  lemma {:induction false} PlayKeeps(packets: seq<Packet>)
    requires WellDecoded(packets)
    ensures Inv(Play(packets)) && Short(Play(packets).tracks)
  {
    if packets == [] {
    } else {
      var before, p := packets[..|packets| - 1], packets[|packets| - 1];
      PlayKeeps(before);
      assert p in packets;
      if p.decoded.Some? {
        var r := Feed(Play(before), p.cid, p.decoded.value, p.pushed);
        FeedKeeps(Play(before), p.cid, p.decoded.value, p.pushed);
        PruneKeeps(r, p.pruned);
        DrainKeeps(Prune(r, p.pruned));
        DrainEmpties(Prune(r, p.pruned));
      }
    }
  }

  /** After every packet each queue is shorter than a frame, and the frames have
      taken from each present track exactly its earliest samples, in order. */
  lemma ConsumedOnceInOrder(packets: seq<Packet>, k: string)
    requires WellDecoded(packets) && k in Play(packets).tracks
    ensures var r := Play(packets);
            k in r.fed && k in r.since && |r.tracks[k]| < FRAME
            && Taken(r.frames, r.since[k], k) + r.tracks[k] == r.fed[k]
  {
    PlayKeeps(packets);
    assert Accounted(Play(packets), k);
  }

  /** A frame takes less than a full chunk from a track only by emptying it, and
      at least one track fills its chunk. */
  lemma SilenceOnlyPastTheEnd(r: Rec, k: string)
    requires Longest(r.tracks) >= FRAME && k in r.tracks
    ensures var c := Chunks(r.tracks)[k];
            c + ReadOne(r).tracks[k] == r.tracks[k] && (|c| < FRAME ==> ReadOne(r).tracks[k] == [])
    ensures exists j | j in r.tracks :: |Chunks(r.tracks)[j]| == FRAME
  {
    var j :| j in r.tracks && |r.tracks[j]| == Longest(r.tracks);
    assert |Chunks(r.tracks)[j]| == FRAME;
  }

  /** Pruning a silent track discards less than a frame of its samples, unless it
      is the track whose packet just arrived. */
  lemma PruneLosesLessThanAFrame(packets: seq<Packet>, p: Packet, k: string)
    requires WellDecoded(packets) && p.decoded.Some? && AllI16(p.decoded.value)
    requires var r := Feed(Play(packets), p.cid, p.decoded.value, p.pushed);
             k in r.tracks && k !in Prune(r, p.pruned).tracks && k != p.cid
    ensures k in Play(packets).tracks && |Play(packets).tracks[k]| < FRAME
  {
    PlayKeeps(packets);
  }

  /** That track, with the samples just pushed, is pruned exactly when the clock
      moves on by more than the timeout between the two readings. */
  lemma SpeakerIsPrunedIff(packets: seq<Packet>, p: Packet)
    requires WellDecoded(packets) && p.decoded.Some? && AllI16(p.decoded.value)
    ensures var r := Feed(Play(packets), p.cid, p.decoded.value, p.pushed);
            p.cid !in Prune(r, p.pruned).tracks <==> p.pruned - p.pushed > SILENT_MS
  {
    PlayKeeps(packets);
    FeedKeeps(Play(packets), p.cid, p.decoded.value, p.pushed);
  }

  // -------------------------------------------------------------------------
  // Frames as samples
  // -------------------------------------------------------------------------

  ghost function Samples(frames: seq<Tracks>): seq<int> {
    if frames == [] then [] else Samples(frames[..|frames| - 1]) + Mixed(frames[|frames| - 1], FRAME)
  }

  lemma {:induction false} SameSum(ks: set<string>, f: string -> int, g: string -> int)
    requires forall k | k in ks :: f(k) == g(k)
    ensures SumOver(ks, f) == SumOver(ks, g)
  {
    if ks == {} {
    } else {
      var k :| k in ks;
      SumTake(ks, k, f);
      SumTake(ks, k, g);
      SameSum(ks - {k}, f, g);
    }
  }

  /** A frame depends only on the chunks it took. */
  lemma MixedOfChunks(tracks: Tracks)
    ensures Mixed(tracks, FRAME) == Mixed(Chunks(tracks), FRAME)
  {
    assert tracks.Keys == Chunks(tracks).Keys;
    assert Count(tracks) == Count(Chunks(tracks)) by {
      assert |tracks| == |tracks.Keys| && |Chunks(tracks)| == |Chunks(tracks).Keys|;
    }
    forall i | 0 <= i < FRAME
      ensures MixAt(tracks, i) == MixAt(Chunks(tracks), i)
    {
      SameSum(tracks.Keys, Shares(tracks, Count(tracks), i), Shares(Chunks(tracks), Count(tracks), i));
    }
  }

  lemma {:induction false} SamplesLength(frames: seq<Tracks>)
    ensures |Samples(frames)| == FRAME * |frames|
  {
    if frames == [] {
    } else {
      SamplesLength(frames[..|frames| - 1]);
    }
  }

  // -------------------------------------------------------------------------
  // The recording loop
  // -------------------------------------------------------------------------

  /** The file so far: a placeholder header, then every frame. */
  ghost predicate Written(file: seq<Byte>, frames: seq<Tracks>) {
    |file| >= 44 && file[44..] == Wav.Encode(Samples(frames))
  }

  /** The mixer and the file agree with the recording. */
  ghost predicate InStep(m: Mixer, w: Wav.WavWriter, r: Rec)
    reads m, w
  {
    m.Ok() && w.Ok() && m.tracks == r.tracks && m.lastPacket == r.last && Written(w.file, r.frames)
  }

  lemma FrameWritten(file: seq<Byte>, r: Rec)
    requires Written(file, r.frames)
    ensures Written(file + Wav.Encode(Mixed(r.tracks, FRAME)), ReadOne(r).frames)
  {
    SamplesStep(r);
    Wav.EncodeConcat(Samples(r.frames), Mixed(r.tracks, FRAME));
    Wav.BodyGrows(file, Wav.Encode(Mixed(r.tracks, FRAME)));
  }

  lemma SamplesStep(r: Rec)
    ensures Samples(ReadOne(r).frames) == Samples(r.frames) + Mixed(r.tracks, FRAME)
  {
    assert ReadOne(r).frames[..|r.frames|] == r.frames;
    MixedOfChunks(r.tracks);
  }

  method EmitFrame(m: Mixer, w: Wav.WavWriter, ghost r: Rec)
    requires InStep(m, w, r)
    modifies m, w
    ensures InStep(m, w, ReadOne(r))
  {
    FrameWritten(w.file, r);
    var frame := m.ReadFrame(FRAME);
    w.WritePcm(frame);
  }

  method DrainFrames(m: Mixer, w: Wav.WavWriter, ghost r: Rec) returns (n: nat)
    requires InStep(m, w, r)
    modifies m, w
    ensures InStep(m, w, Drain(r)) && n + |r.frames| == |Drain(r).frames|
  {
    n := 0;
    ghost var s := r;
    var available := m.Available();
    while available >= FRAME
      invariant InStep(m, w, s) && available == Longest(s.tracks)
      invariant Drain(s) == Drain(r) && n + |r.frames| == |s.frames|
      decreases available
    {
      ReadShortens(s.tracks);
      EmitFrame(m, w, s);
      s := ReadOne(s);
      n := n + 1;
      available := m.Available();
    }
  }

  method TakePacket(m: Mixer, w: Wav.WavWriter, ghost r: Rec, p: Packet) returns (n: nat)
    requires InStep(m, w, r) && (p.decoded.Some? ==> AllI16(p.decoded.value))
    modifies m, w
    ensures InStep(m, w, OnPacket(r, p)) && n + |r.frames| == |OnPacket(r, p).frames|
  {
    if p.decoded.None? {
      return 0;
    }
    m.Push(p.cid, p.decoded.value, p.pushed);
    var _ := m.PruneStale(p.pruned);
    n := DrainFrames(m, w, Prune(Feed(r, p.cid, p.decoded.value, p.pushed), p.pruned));
  }

  method TakeAll(m: Mixer, w: Wav.WavWriter, packets: seq<Packet>) returns (frames: nat)
    requires InStep(m, w, Empty()) && WellDecoded(packets)
    modifies m, w
    ensures InStep(m, w, Play(packets)) && frames == |Play(packets).frames|
  {
    frames := 0;
    for i := 0 to |packets|
      invariant InStep(m, w, Play(packets[..i])) && frames == |Play(packets[..i]).frames|
    {
      assert packets[..i + 1][..i] == packets[..i];
      assert packets[i] in packets;
      var n := TakePacket(m, w, Play(packets[..i]), packets[i]);
      frames := frames + n;
    }
    assert packets[..|packets|] == packets;
  }

  method OpenFile() returns (w: Wav.WavWriter)
    ensures fresh(w) && w.Ok() && w.f == Mono() && Written(w.file, [])
  {
    w := new Wav.WavWriter(Mono());
    assert w.file[44..] == [];
  }

  /** The finished file for a list of frames. */
  ghost function FileOf(frames: seq<Tracks>): seq<Byte> {
    Wav.Finished(Mono(), Wav.Encode(Samples(frames)))
  }

  method CloseFile(w: Wav.WavWriter, ghost frames: seq<Tracks>)
    requires w.Ok() && w.f == Mono() && Written(w.file, frames)
    modifies w
    ensures w.file == FileOf(frames)
  {
    w.Finish();
  }

  /** Records until the packets end; a packet that does not decode is skipped. */
  method RunRecording(packets: seq<Packet>) returns (file: seq<Byte>, frames: nat)
    requires WellDecoded(packets)
    ensures frames == |Play(packets).frames|
    ensures file == FileOf(Play(packets).frames)
  {
    var m := new Mixer();
    var w := OpenFile();
    frames := TakeAll(m, w, packets);
    CloseFile(w, Play(packets).frames);
    file := w.file;
  }

  /** The finished file: its sizes are true exactly below the 32-bit limit, and
      its data reads back as the mixed frames. */
  lemma FileReadsBack(packets: seq<Packet>)
    requires WellDecoded(packets)
    ensures var frames := Play(packets).frames;
            var file := FileOf(frames);
            |file| == 44 + 1920 * |frames|
            && (Wav.RiffSize(file) == |file| - 8 && Wav.DataSize(file) == |file| - 44
                <==> 36 + 1920 * |frames| < U32)
            && Wav.Decode(file[44..]) == Samples(frames)
  {
    var frames := Play(packets).frames;
    var body := Wav.Encode(Samples(frames));
    SamplesLength(frames);
    Wav.SizesAreTrueIff(Mono(), body);
    PlayFramesValid(packets);
    SamplesAreI16(frames);
    Wav.DecodeEncode(Samples(frames));
    Wav.BodyOf(Wav.Header(Mono(), |body|), body);
  }

  predicate FramesValid(frames: seq<Tracks>) {
    forall f | f in frames :: Valid(f)
  }

  lemma {:induction false} DrainFramesValid(r: Rec)
    requires Valid(r.tracks) && FramesValid(r.frames)
    ensures FramesValid(Drain(r).frames)
    decreases Longest(r.tracks)
  {
    if Longest(r.tracks) < FRAME {
    } else {
      ReadShortens(r.tracks);
      DrainFramesValid(ReadOne(r));
    }
  }

  lemma {:induction false} PlayFramesValid(packets: seq<Packet>)
    requires WellDecoded(packets)
    ensures FramesValid(Play(packets).frames)
  {
    if packets == [] {
    } else {
      var before, p := packets[..|packets| - 1], packets[|packets| - 1];
      PlayFramesValid(before);
      PlayKeeps(before);
      assert p in packets;
      if p.decoded.Some? {
        DrainFramesValid(Prune(Feed(Play(before), p.cid, p.decoded.value, p.pushed), p.pruned));
      }
    }
  }

  lemma {:induction false} SamplesAreI16(frames: seq<Tracks>)
    requires FramesValid(frames)
    ensures forall x | x in Samples(frames) :: IsI16(x)
  {
    if frames == [] {
    } else {
      var f := frames[|frames| - 1];
      SamplesAreI16(frames[..|frames| - 1]);
      assert f in frames;
      forall i | 0 <= i < FRAME
        ensures IsI16(MixAt(f, i))
      {
        PartialSumFits(f, f.Keys, i);
      }
    }
  }
}

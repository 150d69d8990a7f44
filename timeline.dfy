/** The timeline that slider.py builds, as a specification: the audio track,
    the timecode listing and the running time that result from playing a
    sequence of segments, together with the laws the builder is meant to
    keep (the track lasts exactly as long as the counter says, every stamp
    is on a whole second, stamps are at least three seconds apart, and
    stamp i is where the audio of the first i segments ends). */
module Timeline {
  import opened Wrappers
  import opened Dictionary
  import opened Assets
  import opened Timecode
  import opened Sequences

  /** The silence after every clip. */
  const GapMs: nat := 2000

  /** One piece of the combined audio: a decoded clip with its length in
      milliseconds, or a stretch of silence. */
  datatype AudioItem = Clip(path: string, durMs: nat) | Silence(ms: nat)

  function ItemMs(a: AudioItem): nat
  {
    match a
    case Clip(_, d) => d
    case Silence(ms) => ms
  }

  /** The length of an audio sequence: the sum of its items' lengths. */
  function Duration(items: seq<AudioItem>): nat
  {
    if |items| == 0 then 0 else Duration(items[..|items| - 1]) + ItemMs(items[|items| - 1])
  }

  lemma {:induction false} DurationAppend(a: seq<AudioItem>, b: seq<AudioItem>)
    ensures Duration(a + b) == Duration(a) + Duration(b)
    decreases |b|
  {
    if |b| == 0 {
      assert a + b == a;
    } else {
      DurationAppend(a, b[..|b| - 1]);
      assert (a + b)[..|a + b| - 1] == a + b[..|b| - 1];
    }
  }

  /** `((t // 1000) + 1) * 1000`: the next whole second strictly after `t`.
      An already whole-second `t` moves a full second on. */
  function NextSecond(t: nat): (r: nat)
    ensures r % MsPerSecond == 0
    ensures t < r && r - MsPerSecond <= t
  {
    (t / MsPerSecond + 1) * MsPerSecond
  }

  /** One scheduled slide: the image to show and the clips to play, each
      followed by `GapMs` of silence. */
  datatype Segment = Segment(image: string, clips: seq<string>)

  /** The segment slider.py schedules for a card: the English clip once; a
      variant's clip twice, then, for Mandarin only, its breakdown clip. */
  function SegmentOf(name: string, c: Card): (s: Segment)
    ensures |s.clips| >= 1
  {
    var audio := AudioPath(name, c);
    match c
    case English(_) => Segment(ImagePath(name, c), [audio])
    case Foreign(_, lang, _, _) =>
      Segment(ImagePath(name, c), [audio, audio] + (if lang == Mandarin then [BreakdownPath(audio)] else []))
  }

  function SegmentsOf(name: string, cards: seq<Card>): (r: seq<Segment>)
    ensures |r| == |cards| && forall i :: 0 <= i < |r| ==> r[i] == SegmentOf(name, cards[i])
  {
    seq(|cards|, i requires 0 <= i < |cards| => SegmentOf(name, cards[i]))
  }

  lemma SegmentsSnoc(name: string, cards: seq<Card>, c: Card)
    ensures SegmentsOf(name, cards + [c]) == SegmentsOf(name, cards) + [SegmentOf(name, c)]
  {
  }

  /** The segments of the whole dictionary, in visiting order. */
  function Plan(name: string, d: Dict): seq<Segment>
  {
    SegmentsOf(name, Cards(d))
  }

  /** Every path has a known length. */
  ghost predicate AllIn(paths: seq<string>, dur: map<string, nat>)
  {
    forall j :: 0 <= j < |paths| ==> paths[j] in dur
  }

  /** Every clip of a segment has a known length. */
  ghost predicate Playable(s: Segment, dur: map<string, nat>)
  {
    AllIn(s.clips, dur)
  }

  /** Every clip a segment list plays has a known length. */
  ghost predicate Available(segs: seq<Segment>, dur: map<string, nat>)
  {
    forall i :: 0 <= i < |segs| ==> Playable(segs[i], dur)
  }

  /** Each clip followed by its gap of silence. */
  function ClipsAudio(clips: seq<string>, dur: map<string, nat>): seq<AudioItem>
    requires AllIn(clips, dur)
  {
    if |clips| == 0 then []
    else
      var c := clips[|clips| - 1];
      ClipsAudio(clips[..|clips| - 1], dur) + [Clip(c, dur[c]), Silence(GapMs)]
  }

  /** A timecode entry: when an image appears, in milliseconds. */
  datatype Stamp = Stamp(ms: nat, image: string)

  /** The three accumulators of the builder: the combined audio, the stamps
      (formatted into the timecode listing) and the running time. */
  datatype Track = Track(audio: seq<AudioItem>, stamps: seq<Stamp>, endMs: nat)

  /** Playing one more segment: it is stamped at the current time, its clips
      and gaps are appended, and silence pads the time up to the next whole
      second. */
  function Step(prev: Track, s: Segment, dur: map<string, nat>): Track
    requires Playable(s, dur)
  {
    var body := ClipsAudio(s.clips, dur);
    var t := prev.endMs + Duration(body);
    Track(prev.audio + body + [Silence(NextSecond(t) - t)],
          prev.stamps + [Stamp(prev.endMs, s.image)],
          NextSecond(t))
  }

  /** Playing the segments one after the other from time 0. */
  function Schedule(segs: seq<Segment>, dur: map<string, nat>): Track
    requires Available(segs, dur)
  {
    if |segs| == 0 then Track([], [], 0)
    else Step(Schedule(segs[..|segs| - 1], dur), segs[|segs| - 1], dur)
  }

  /** One line of the timecode listing: `HH:MM:SS<tab>image<newline>`. */
  function TimecodeLine(s: Stamp): string
  {
    FormatTime(s.ms) + "\t" + s.image + "\n"
  }

  /** The timecode listing: one line per stamp, in order. */
  function TimecodeText(stamps: seq<Stamp>): string
  {
    if |stamps| == 0 then "" else TimecodeText(stamps[..|stamps| - 1]) + TimecodeLine(stamps[|stamps| - 1])
  }

  /** Appending a stamp appends its line. */
  lemma TimecodeTextSnoc(stamps: seq<Stamp>, st: Stamp)
    ensures TimecodeText(stamps + [st]) == TimecodeText(stamps) + TimecodeLine(st)
  {
    assert (stamps + [st])[..|stamps|] == stamps;
  }

  /** Every clip path in the order the builder loads them. */
  function AllClips(segs: seq<Segment>): seq<string>
  {
    if |segs| == 0 then [] else AllClips(segs[..|segs| - 1]) + segs[|segs| - 1].clips
  }

  /** The first path, in loading order, whose clip cannot be read. */
  function FirstMissing(paths: seq<string>, dur: map<string, nat>): (r: Option<string>)
    ensures r.None? <==> AllIn(paths, dur)
    ensures r.Some? ==> exists j :: (0 <= j < |paths| && paths[j] == r.value && r.value !in dur
      && forall k :: 0 <= k < j ==> paths[k] in dur)
  {
    if |paths| == 0 then None
    else if paths[0] !in dur then Some(paths[0])
    else
      var r := FirstMissing(paths[1..], dur);
      assert forall j :: 1 <= j < |paths| ==> paths[j] == paths[1..][j - 1];
      if r.Some? then
        var j :| 0 <= j < |paths[1..]| && paths[1..][j] == r.value && r.value !in dur
          && forall k :: 0 <= k < j ==> paths[1..][k] in dur;
        assert paths[j + 1] == r.value;
        r
      else r
  }

  // ---------------------------------------------------------------------
  // Padding

  /** Each rounding step appends between 1 and 1000 ms of silence and leaves
      the time at the smallest multiple of 1000 strictly above it. */
  lemma PaddingLaw(t: nat)
    ensures 1 <= NextSecond(t) - t <= MsPerSecond
    ensures NextSecond(t) % MsPerSecond == 0
    ensures forall m: nat :: t < m < NextSecond(t) ==> m % MsPerSecond != 0
  {
    forall m: nat | t < m < NextSecond(t) ensures m % MsPerSecond != 0 {
      var q := t / MsPerSecond;
      assert q * MsPerSecond <= t;
      var r := m - q * MsPerSecond;
      assert 0 < r < MsPerSecond;
      assert m == q * MsPerSecond + r;
    }
  }

  // ---------------------------------------------------------------------
  // Laws of the schedule

  lemma ScheduleSnoc(segs: seq<Segment>, s: Segment, dur: map<string, nat>)
    requires Available(segs + [s], dur)
    ensures Available(segs, dur) && Playable(s, dur)
    ensures Schedule(segs + [s], dur) == Step(Schedule(segs, dur), s, dur)
  {
    var all := segs + [s];
    assert all[..|all| - 1] == segs && all[|all| - 1] == s;
    forall i | 0 <= i < |segs| ensures Playable(segs[i], dur) {
      assert all[i] == segs[i];
    }
  }

  /** Playing one more clip appends it and its gap, and adds its length and
      the gap to the running time. */
  lemma ClipsAudioSnoc(clips: seq<string>, k: nat, dur: map<string, nat>)
    requires k < |clips| && AllIn(clips[..k], dur) && clips[k] in dur
    ensures AllIn(clips[..k + 1], dur)
    ensures var c := clips[k];
      && ClipsAudio(clips[..k + 1], dur) == ClipsAudio(clips[..k], dur) + [Clip(c, dur[c]), Silence(GapMs)]
      && Duration(ClipsAudio(clips[..k + 1], dur)) == Duration(ClipsAudio(clips[..k], dur)) + dur[c] + GapMs
  {
    var c := clips[k];
    assert clips[..k + 1] == clips[..k] + [c];
    AllInAppend(clips[..k], [c], dur);
    assert clips[..k + 1][..k] == clips[..k];
    var x := [Clip(c, dur[c]), Silence(GapMs)];
    DurationAppend(ClipsAudio(clips[..k], dur), x);
    PairDuration(c, dur[c]);
  }

  lemma PairDuration(c: string, ms: nat)
    ensures Duration([Clip(c, ms), Silence(GapMs)]) == ms + GapMs
  {
    var x := [Clip(c, ms), Silence(GapMs)];
    var y := [Clip(c, ms)];
    assert x[..1] == y && y[..0] == [];
    assert Duration(y) == Duration(y[..0]) + ms;
    assert Duration(x) == Duration(x[..1]) + GapMs;
  }

  /** The clips of a segment, each followed by its gap, last at least one
      gap (2000 ms) per clip. */
  lemma {:induction false} ClipsAudioDuration(clips: seq<string>, dur: map<string, nat>)
    requires AllIn(clips, dur)
    ensures Duration(ClipsAudio(clips, dur)) >= GapMs * |clips|
    decreases |clips|
  {
    if |clips| > 0 {
      var c := clips[|clips| - 1];
      var pre := ClipsAudio(clips[..|clips| - 1], dur);
      ClipsAudioDuration(clips[..|clips| - 1], dur);
      DurationAppend(pre, [Clip(c, dur[c]), Silence(GapMs)]);
      var x := [Clip(c, dur[c]), Silence(GapMs)];
      assert x[..1] == [Clip(c, dur[c])];
      assert [Clip(c, dur[c])][..0] == [];
      assert Duration([Clip(c, dur[c])]) == dur[c];
      assert Duration(x) == dur[c] + GapMs;
    }
  }

  /** No drift: the combined audio lasts exactly as long as the running
      time says, after every segment and so at export. */
  lemma {:induction false} DurationMatchesCounter(segs: seq<Segment>, dur: map<string, nat>)
    requires Available(segs, dur)
    ensures Duration(Schedule(segs, dur).audio) == Schedule(segs, dur).endMs
    decreases |segs|
  {
    if |segs| > 0 {
      var pre := segs[..|segs| - 1];
      var s := segs[|segs| - 1];
      assert pre + [s] == segs;
      ScheduleSnoc(pre, s, dur);
      DurationMatchesCounter(pre, dur);
      var prev := Schedule(pre, dur);
      var body := ClipsAudio(s.clips, dur);
      var t := prev.endMs + Duration(body);
      DurationAppend(prev.audio, body);
      DurationAppend(prev.audio + body, [Silence(NextSecond(t) - t)]);
      assert Duration([Silence(NextSecond(t) - t)]) == NextSecond(t) - t by {
        assert [Silence(NextSecond(t) - t)][..0] == [];
      }
    }
  }

  /** One stamp per segment, in segment order; stamp i is taken where the
      first i segments end. */
  lemma {:induction false} StampsFollowSegments(segs: seq<Segment>, dur: map<string, nat>)
    requires Available(segs, dur)
    ensures |Schedule(segs, dur).stamps| == |segs|
    ensures forall i :: 0 <= i < |segs| ==>
      Available(segs[..i], dur) &&
      Schedule(segs, dur).stamps[i] == Stamp(Schedule(segs[..i], dur).endMs, segs[i].image)
    decreases |segs|
  {
    if |segs| > 0 {
      var n := |segs| - 1;
      var pre := segs[..n];
      assert pre + [segs[n]] == segs;
      ScheduleSnoc(pre, segs[n], dur);
      StampsFollowSegments(pre, dur);
      forall i | 0 <= i < n ensures segs[..i] == pre[..i] {
      }
    }
  }

  /** Every stamp, and the final time, are whole seconds. */
  lemma {:induction false} StampsOnWholeSeconds(segs: seq<Segment>, dur: map<string, nat>)
    requires Available(segs, dur)
    ensures Schedule(segs, dur).endMs % MsPerSecond == 0
    ensures forall i :: 0 <= i < |Schedule(segs, dur).stamps| ==> Schedule(segs, dur).stamps[i].ms % MsPerSecond == 0
    decreases |segs|
  {
    if |segs| > 0 {
      var pre := segs[..|segs| - 1];
      assert pre + [segs[|segs| - 1]] == segs;
      ScheduleSnoc(pre, segs[|segs| - 1], dur);
      StampsOnWholeSeconds(pre, dur);
    }
  }

  /** Stamps at least 3000 ms apart, the last at least 3000 ms before the
      end of the track. */
  predicate Spaced(tr: Track)
  {
    && (forall i, j :: 0 <= i < j < |tr.stamps| ==> tr.stamps[i].ms + 3000 <= tr.stamps[j].ms)
    && (forall i :: 0 <= i < |tr.stamps| ==> tr.stamps[i].ms + 3000 <= tr.endMs)
  }

  /** When every segment plays at least one clip, stamps strictly increase,
      each at least 3000 ms after the one before, and the track runs at least
      3000 ms past the last one. */
  lemma {:induction false} StampsSpaced(segs: seq<Segment>, dur: map<string, nat>)
    requires Available(segs, dur)
    requires forall i :: 0 <= i < |segs| ==> |segs[i].clips| >= 1
    ensures Spaced(Schedule(segs, dur))
    decreases |segs|
  {
    if |segs| > 0 {
      var n := |segs| - 1;
      var pre := segs[..n];
      var s := segs[n];
      assert pre + [s] == segs;
      ScheduleSnoc(pre, s, dur);
      forall i | 0 <= i < n ensures |pre[i].clips| >= 1 {
        assert pre[i] == segs[i];
      }
      StampsSpaced(pre, dur);
      StampsOnWholeSeconds(pre, dur);
      SpacedStep(Schedule(pre, dur), s, dur);
    }
  }

  /** Playing a segment with at least one clip after a track that ends on a
      whole second keeps the stamps at least 3000 ms apart. */
  lemma SpacedStep(prev: Track, s: Segment, dur: map<string, nat>)
    requires Playable(s, dur) && |s.clips| >= 1 && prev.endMs % MsPerSecond == 0
    requires Spaced(prev)
    ensures Spaced(Step(prev, s, dur))
  {
    ClipsAudioDuration(s.clips, dur);
    var t := prev.endMs + Duration(ClipsAudio(s.clips, dur));
    AlignedStep(prev.endMs, t);
    var tr := Step(prev, s, dur);
    assert tr.stamps == prev.stamps + [Stamp(prev.endMs, s.image)];
    assert tr.endMs >= prev.endMs + 3000;
    forall i, j | 0 <= i < j < |tr.stamps| ensures tr.stamps[i].ms + 3000 <= tr.stamps[j].ms {
      assert tr.stamps[i] == prev.stamps[i];
      if j < |prev.stamps| {
        assert tr.stamps[j] == prev.stamps[j];
      }
    }
    forall i | 0 <= i < |tr.stamps| ensures tr.stamps[i].ms + 3000 <= tr.endMs {
      if i < |prev.stamps| {
        assert tr.stamps[i] == prev.stamps[i];
      }
    }
  }

  /** From a whole second, anything more than 2000 ms on rounds to at least
      3000 ms on. */
  lemma AlignedStep(a: nat, t: nat)
    requires a % MsPerSecond == 0 && t >= a + GapMs
    ensures NextSecond(t) >= a + 3000
  {
    var q := a / MsPerSecond;
    assert a == q * MsPerSecond;
    assert t / MsPerSecond >= q + 2;
  }

  /** Audio and stamps share one index space: the audio scheduled for the
      first k segments is a prefix of the whole track. */
  lemma {:induction false} AudioPrefix(segs: seq<Segment>, k: nat, dur: map<string, nat>)
    requires Available(segs, dur) && k <= |segs|
    ensures Available(segs[..k], dur)
    ensures Schedule(segs[..k], dur).audio <= Schedule(segs, dur).audio
    ensures Schedule(segs[..k], dur).endMs <= Schedule(segs, dur).endMs
    decreases |segs|
  {
    if k < |segs| {
      var n := |segs| - 1;
      var init, last := segs[..n], segs[n];
      assert init + [last] == segs;
      ScheduleSnoc(init, last, dur);
      AudioPrefix(init, k, dur);
      assert init[..k] == segs[..k];
      StepExtends(Schedule(init, dur), last, dur);
      PrefixTrans(Schedule(segs[..k], dur).audio, Schedule(init, dur).audio, Schedule(segs, dur).audio);
    } else {
      assert segs[..k] == segs;
    }
  }

  /** Playing a segment only adds audio and moves the time forward. */
  lemma StepExtends(prev: Track, s: Segment, dur: map<string, nat>)
    requires Playable(s, dur)
    ensures prev.audio <= Step(prev, s, dur).audio && prev.endMs <= Step(prev, s, dur).endMs
  {
    var body := ClipsAudio(s.clips, dur);
    var t := prev.endMs + Duration(body);
    assert Step(prev, s, dur).audio == prev.audio + (body + [Silence(NextSecond(t) - t)]);
  }

  /** The image of stamp i appears exactly when the audio scheduled before
      segment i has played out. */
  lemma StampsInSync(segs: seq<Segment>, dur: map<string, nat>, i: nat)
    requires Available(segs, dur) && i < |segs|
    ensures Available(segs[..i], dur)
    ensures Schedule(segs[..i], dur).audio <= Schedule(segs, dur).audio
    ensures |Schedule(segs, dur).stamps| == |segs|
    ensures Schedule(segs, dur).stamps[i].ms == Duration(Schedule(segs[..i], dur).audio)
  {
    StampsFollowSegments(segs, dur);
    AudioPrefix(segs, i, dur);
    DurationMatchesCounter(segs[..i], dur);
  }

  // ---------------------------------------------------------------------
  // The dictionary's plan

  /** The timecode listing has one line per card, in visiting order, naming
      the card's image; stamps are whole seconds at least 3000 ms apart, and
      the audio lasts exactly as long as the running time. */
  lemma PlanTimeline(name: string, d: Dict, dur: map<string, nat>)
    requires Available(Plan(name, d), dur)
    ensures var tr := Schedule(Plan(name, d), dur);
      && |tr.stamps| == |Cards(d)|
      && (forall i :: 0 <= i < |tr.stamps| ==> tr.stamps[i].image == ImagePath(name, Cards(d)[i]))
      && (forall i :: 0 <= i < |tr.stamps| ==> tr.stamps[i].ms % MsPerSecond == 0)
      && (forall i, j :: 0 <= i < j < |tr.stamps| ==> tr.stamps[i].ms + 3000 <= tr.stamps[j].ms)
      && Duration(tr.audio) == tr.endMs
  {
    var segs := Plan(name, d);
    TrackShape(segs, dur);
    var tr := Schedule(segs, dur);
    forall i | 0 <= i < |tr.stamps| ensures tr.stamps[i].image == ImagePath(name, Cards(d)[i]) {
      assert segs[i] == SegmentOf(name, Cards(d)[i]);
    }
  }

  /** The schedule of any segment list whose segments each play a clip: one
      stamp per segment naming its image, on whole seconds, at least 3000 ms
      apart, and audio exactly as long as the running time. */
  lemma TrackShape(segs: seq<Segment>, dur: map<string, nat>)
    requires Available(segs, dur)
    requires forall i :: 0 <= i < |segs| ==> |segs[i].clips| >= 1
    ensures var tr := Schedule(segs, dur);
      && |tr.stamps| == |segs|
      && (forall i :: 0 <= i < |tr.stamps| ==> tr.stamps[i].image == segs[i].image)
      && (forall i :: 0 <= i < |tr.stamps| ==> tr.stamps[i].ms % MsPerSecond == 0)
      && Spaced(tr)
      && Duration(tr.audio) == tr.endMs
  {
    StampsFollowSegments(segs, dur);
    StampsOnWholeSeconds(segs, dur);
    StampsSpaced(segs, dur);
    DurationMatchesCounter(segs, dur);
  }

  /** A variant's audio: its clip and a gap, twice, then for Mandarin only the
      breakdown clip and a gap. */
  lemma VariantAudio(name: string, c: Card, dur: map<string, nat>)
    requires c.Foreign?
    requires AudioPath(name, c) in dur
    requires c.lang == Mandarin ==> BreakdownPath(AudioPath(name, c)) in dur
    ensures var a := AudioPath(name, c);
      var twice := [Clip(a, dur[a]), Silence(GapMs), Clip(a, dur[a]), Silence(GapMs)];
      ClipsAudio(SegmentOf(name, c).clips, dur) ==
        if c.lang == Mandarin then twice + [Clip(BreakdownPath(a), dur[BreakdownPath(a)]), Silence(GapMs)]
        else twice
  {
    var a := AudioPath(name, c);
    var clips := SegmentOf(name, c).clips;
    var x := [Clip(a, dur[a]), Silence(GapMs)];
    assert clips[..1][..0] == [];
    assert ClipsAudio(clips[..1], dur) == x;
    assert clips[..2][..1] == clips[..1];
    assert ClipsAudio(clips[..2], dur) == x + x;
    if c.lang == Mandarin {
      assert clips[..3] == clips && clips[..3][..2] == clips[..2];
    } else {
      assert clips[..2] == clips;
    }
  }

  /** An empty dictionary gives zero-length audio and an empty listing. */
  lemma EmptyDictionary(name: string, dur: map<string, nat>)
    ensures Available(Plan(name, []), dur)
    ensures Schedule(Plan(name, []), dur) == Track([], [], 0)
    ensures TimecodeText(Schedule(Plan(name, []), dur).stamps) == ""
  {
  }

  // ---------------------------------------------------------------------
  // Missing clips

  lemma {:induction false} AllClipsAppend(a: seq<Segment>, b: seq<Segment>)
    ensures AllClips(a + b) == AllClips(a) + AllClips(b)
    decreases |b|
  {
    if |b| == 0 {
      assert a + b == a;
    } else {
      var init, last := b[..|b| - 1], b[|b| - 1];
      AllClipsAppend(a, init);
      SnocSplit(a, b);
      assert AllClips(a + b) == AllClips(a + init) + last.clips;
      assert AllClips(b) == AllClips(init) + last.clips;
      AppendAssoc(AllClips(a), AllClips(init), last.clips);
    }
  }

  lemma AllInAppend(a: seq<string>, b: seq<string>, dur: map<string, nat>)
    ensures AllIn(a + b, dur) <==> AllIn(a, dur) && AllIn(b, dur)
  {
    if AllIn(a, dur) && AllIn(b, dur) {
      forall j | 0 <= j < |a + b| ensures (a + b)[j] in dur {
        if j >= |a| {
          assert (a + b)[j] == b[j - |a|];
        }
      }
    }
    if AllIn(a + b, dur) {
      forall j | 0 <= j < |a| ensures a[j] in dur {
        assert (a + b)[j] == a[j];
      }
      forall j | 0 <= j < |b| ensures b[j] in dur {
        assert (a + b)[|a| + j] == b[j];
      }
    }
  }

  /** Nothing is missing exactly when every clip is available. */
  lemma {:induction false} NothingMissing(segs: seq<Segment>, dur: map<string, nat>)
    ensures FirstMissing(AllClips(segs), dur).None? <==> Available(segs, dur)
    decreases |segs|
  {
    if |segs| > 0 {
      var pre := segs[..|segs| - 1];
      var s := segs[|segs| - 1];
      NothingMissing(pre, dur);
      assert AllClips(segs) == AllClips(pre) + s.clips;
      AllInAppend(AllClips(pre), s.clips, dur);
      AvailableSnoc(segs, dur);
    }
  }

  lemma AvailableSnoc(segs: seq<Segment>, dur: map<string, nat>)
    requires |segs| > 0
    ensures Available(segs, dur) <==> Available(segs[..|segs| - 1], dur) && Playable(segs[|segs| - 1], dur)
  {
    var pre := segs[..|segs| - 1];
    assert forall i :: 0 <= i < |pre| ==> pre[i] == segs[i];
  }

  lemma {:induction false} AllClipsPrefix(a: seq<Segment>, b: seq<Segment>)
    requires a <= b
    ensures AllClips(a) <= AllClips(b)
  {
    assert b == a + b[|a|..];
    AllClipsAppend(a, b[|a|..]);
  }

  /** The first missing clip of a prefix is the first missing clip of the
      whole list. */
  lemma {:induction false} FirstMissingOfPrefix(a: seq<string>, b: seq<string>, dur: map<string, nat>)
    requires a <= b && FirstMissing(a, dur).Some?
    ensures FirstMissing(b, dur) == FirstMissing(a, dur)
    decreases |a|
  {
    assert a[0] == b[0];
    if a[0] in dur {
      assert a[1..] <= b[1..];
      FirstMissingOfPrefix(a[1..], b[1..], dur);
    }
  }

  /** The first missing path is the first one not in the map. */
  lemma {:induction false} FirstMissingAt(paths: seq<string>, k: nat, dur: map<string, nat>)
    requires k < |paths| && paths[k] !in dur
    requires forall j :: 0 <= j < k ==> paths[j] in dur
    ensures FirstMissing(paths, dur) == Some(paths[k])
    decreases k
  {
    if k > 0 {
      assert paths[0] in dur;
      FirstMissingAt(paths[1..], k - 1, dur);
    }
  }

  lemma SegmentsPrefix(name: string, a: seq<Card>, b: seq<Card>)
    requires a <= b
    ensures SegmentsOf(name, a) <= SegmentsOf(name, b)
  {
  }

  /** If every clip of `segs` is present, and clip `k` of the next segment
      is the first of its clips that cannot be read, that clip is the first
      missing one of any segment list that starts with them. */
  lemma MissingInPrefix(segs: seq<Segment>, seg: Segment, all: seq<Segment>, k: nat, dur: map<string, nat>)
    requires segs + [seg] <= all
    requires Available(segs, dur)
    requires k < |seg.clips| && AllIn(seg.clips[..k], dur) && seg.clips[k] !in dur
    ensures FirstMissing(AllClips(all), dur) == Some(seg.clips[k])
  {
    forall j | 0 <= j < k ensures seg.clips[j] in dur {
      assert seg.clips[..k][j] == seg.clips[j];
    }
    NothingMissing(segs, dur);
    FirstMissingAt(seg.clips, k, dur);
    FirstMissingAppend(AllClips(segs), seg.clips, dur);
    var next := segs + [seg];
    assert next[..|next| - 1] == segs;
    assert AllClips(next) == AllClips(segs) + seg.clips;
    AllClipsPrefix(next, all);
    FirstMissingOfPrefix(AllClips(next), AllClips(all), dur);
  }

  /** A clip missing from a prefix is the first missing clip of the whole. */
  lemma MissingExtends(a: seq<Segment>, b: seq<Segment>, dur: map<string, nat>)
    requires a <= b && FirstMissing(AllClips(a), dur).Some?
    ensures FirstMissing(AllClips(b), dur) == FirstMissing(AllClips(a), dur)
  {
    AllClipsPrefix(a, b);
    FirstMissingOfPrefix(AllClips(a), AllClips(b), dur);
  }

  lemma SegmentsAppend(name: string, a: seq<Card>, b: seq<Card>)
    ensures SegmentsOf(name, a + b) == SegmentsOf(name, a) + SegmentsOf(name, b)
  {
  }

  /** When nothing in `a` is missing, the first missing path of `a + b` is
      that of `b`. */
  lemma {:induction false} FirstMissingAppend(a: seq<string>, b: seq<string>, dur: map<string, nat>)
    requires FirstMissing(a, dur).None?
    ensures FirstMissing(a + b, dur) == FirstMissing(b, dur)
    decreases |a|
  {
    if |a| == 0 {
      assert a + b == b;
    } else {
      assert (a + b)[0] == a[0] && (a + b)[1..] == a[1..] + b;
      FirstMissingAppend(a[1..], b, dur);
    }
  }
}

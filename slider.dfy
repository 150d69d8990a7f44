/** `generate_timecodes_and_audio` (slider.py): walks the dictionary card by
    card, appending each card's timecode line, its clips with their gaps,
    and the silence that pads the running time to the next whole second.
    Clip decoding is replaced by a map from clip path to clip length; a path
    the map lacks is a clip that cannot be read, which aborts the run before
    anything is exported. */
module Slider {
  import opened Wrappers
  import opened Text
  import opened Timecode
  import opened Dictionary
  import opened Assets
  import opened Timeline
  import opened Sequences

  /** The clip that could not be read. */
  datatype MissingAsset = MissingAsset(path: string)

  /** What the run exports: the combined audio, the timecode listing, and
      the final running time. */
  datatype Output = Output(audio: seq<AudioItem>, timecodes: string, endMs: nat)

  /** The accumulators hold the schedule of the segments played so far. */
  ghost predicate Built(segs: seq<Segment>, dur: map<string, nat>,
                        audio: seq<AudioItem>, stamps: seq<Stamp>, cum: nat)
  {
    && Available(segs, dur)
    && var tr := Schedule(segs, dur);
    && audio == tr.audio && stamps == tr.stamps && cum == tr.endMs
  }

  /** After track `tr`, segment `seg` has been stamped and its first `k`
      clips played. */
  ghost predicate Playing(tr: Track, seg: Segment, k: nat, dur: map<string, nat>,
                          audio: seq<AudioItem>, stamps: seq<Stamp>, cum: nat)
  {
    && k <= |seg.clips|
    && AllIn(seg.clips[..k], dur)
    && audio == tr.audio + ClipsAudio(seg.clips[..k], dur)
    && stamps == tr.stamps + [Stamp(tr.endMs, seg.image)]
    && cum == tr.endMs + Duration(ClipsAudio(seg.clips[..k], dur))
  }

  lemma StartSegment(segs: seq<Segment>, seg: Segment, dur: map<string, nat>,
                     audio: seq<AudioItem>, stamps: seq<Stamp>, cum: nat)
    requires Built(segs, dur, audio, stamps, cum)
    ensures Playing(Schedule(segs, dur), seg, 0, dur, audio, stamps + [Stamp(cum, seg.image)], cum)
  {
    assert seg.clips[..0] == [];
  }

  lemma PlayClip(tr: Track, seg: Segment, k: nat, dur: map<string, nat>,
                 audio: seq<AudioItem>, stamps: seq<Stamp>, cum: nat, path: string, len: nat)
    requires Playing(tr, seg, k, dur, audio, stamps, cum)
    requires k < |seg.clips| && seg.clips[k] == path && path in dur && dur[path] == len
    ensures Playing(tr, seg, k + 1, dur, audio + [Clip(path, len), Silence(GapMs)], stamps, cum + len + GapMs)
  {
    ClipsAudioSnoc(seg.clips, k, dur);
  }

  lemma FinishSegment(segs: seq<Segment>, seg: Segment, dur: map<string, nat>,
                      audio: seq<AudioItem>, stamps: seq<Stamp>, cum: nat, silence: nat)
    requires Available(segs, dur)
    requires Playing(Schedule(segs, dur), seg, |seg.clips|, dur, audio, stamps, cum)
    requires silence == NextSecond(cum) - cum
    ensures Built(segs + [seg], dur, audio + [Silence(silence)], stamps, cum + silence)
  {
    var tr := Schedule(segs, dur);
    assert seg.clips[..|seg.clips|] == seg.clips;
    assert Playable(seg, dur);
    AvailableSnoc(segs + [seg], dur);
    assert (segs + [seg])[..|segs|] == segs;
    ScheduleSnoc(segs, seg, dur);
    var next := Step(tr, seg, dur);
    assert next.audio == audio + [Silence(NextSecond(cum) - cum)];
    assert next.stamps == stamps;
    assert next.endMs == NextSecond(cum);
  }

  /** The timecode line of an image shown at `cum`, appended to `text`. */
  lemma StampLine(stamps: seq<Stamp>, text: string, cum: nat, image: string)
    requires text == TimecodeText(stamps)
    ensures text + TimecodeLine(Stamp(cum, image)) == TimecodeText(stamps + [Stamp(cum, image)])
  {
    TimecodeTextSnoc(stamps, Stamp(cum, image));
  }

  /** `format_time(cumulative_time_ms)` and the line `timestamp<tab>image`
      appended to the listing: the segment is stamped where the schedule so
      far ends, before any of its clips. */
  method StampImage(ghost before: seq<Segment>, ghost seg: Segment, imagePath: string, ghost dur: map<string, nat>,
                    ghost audio: seq<AudioItem>, ghost stamps: seq<Stamp>, text: string, cum: nat)
    returns (combinedTimecodes: string, ghost stampsOut: seq<Stamp>)
    requires Built(before, dur, audio, stamps, cum) && text == TimecodeText(stamps) && seg.image == imagePath
    ensures Playing(Schedule(before, dur), seg, 0, dur, audio, stampsOut, cum)
    ensures combinedTimecodes == TimecodeText(stampsOut)
  {
    StartSegment(before, seg, dur, audio, stamps, cum);
    StampLine(stamps, text, cum, imagePath);
    var timestamp := FormatTime(cum);
    combinedTimecodes := text + (timestamp + "\t" + imagePath + "\n");
    stampsOut := stamps + [Stamp(cum, imagePath)];
  }

  /** One variant of a language (the body of the loop over `i`): it is
      stamped, its clip played twice and, for Mandarin, its breakdown clip
      once, and the time padded to the next whole second. Starting from the
      schedule of `before`, it ends with the schedule of `before` and the
      variant's segment, or fails on the first of the variant's clips that
      cannot be read. */
  method PlayVariant(name: string, card: Card, dur: map<string, nat>,
                     ghost before: seq<Segment>, audio: seq<AudioItem>, ghost stamps: seq<Stamp>,
                     text: string, cum: nat)
    returns (r: Result<(seq<AudioItem>, string, nat), MissingAsset>, ghost stampsOut: seq<Stamp>)
    requires card.Foreign?
    requires Built(before, dur, audio, stamps, cum) && text == TimecodeText(stamps)
    ensures var after := before + [SegmentOf(name, card)];
      && (r.Success? ==> Built(after, dur, r.value.0, stampsOut, r.value.2) && r.value.1 == TimecodeText(stampsOut))
      && (r.Failure? ==> FirstMissing(AllClips(after), dur) == Some(r.error.path))
  {
    ghost var seg := SegmentOf(name, card);
    var imagePath := ImagePath(name, card);
    var audioPath := AudioPath(name, card);
    var mandarin := card.lang == Mandarin;
    assert seg == Segment(imagePath, [audioPath, audioPath] + (if mandarin then [BreakdownPath(audioPath)] else []));
    r, stampsOut := PlayVariantSegment(before, seg, imagePath, audioPath, mandarin, dur, audio, stamps, text, cum);
  }

  /** The body of `PlayVariant` once the paths are known: the image stamped,
      the clip played twice, the breakdown clip when `mandarin`, then the
      padding. */
  method PlayVariantSegment(ghost before: seq<Segment>, ghost seg: Segment, imagePath: string, audioPath: string,
                            mandarin: bool, dur: map<string, nat>, audio: seq<AudioItem>, ghost stamps: seq<Stamp>,
                            text: string, cum: nat)
    returns (r: Result<(seq<AudioItem>, string, nat), MissingAsset>, ghost stampsOut: seq<Stamp>)
    requires Built(before, dur, audio, stamps, cum) && text == TimecodeText(stamps)
    requires seg == Segment(imagePath, [audioPath, audioPath] + (if mandarin then [BreakdownPath(audioPath)] else []))
    ensures var after := before + [seg];
      && (r.Success? ==> Built(after, dur, r.value.0, stampsOut, r.value.2) && r.value.1 == TimecodeText(stampsOut))
      && (r.Failure? ==> FirstMissing(AllClips(after), dur) == Some(r.error.path))
  {
    var combinedTimecodes;
    combinedTimecodes, stampsOut := StampImage(before, seg, imagePath, dur, audio, stamps, text, cum);
    ghost var after := before + [seg];
    var played := PlayTwice(before, seg, audioPath, dur, after, audio, stampsOut, cum);
    if played.Failure? {
      return Failure(played.error), stampsOut;
    }
    var combinedAudio, cumulativeMs := played.value.0, played.value.1;
    if mandarin {
      var breakdownPath := BreakdownPath(audioPath);
      played := PlayClipAt(before, seg, 2, breakdownPath, dur, after, combinedAudio, stampsOut, cumulativeMs);
      if played.Failure? {
        return Failure(played.error), stampsOut;
      }
      combinedAudio, cumulativeMs := played.value.0, played.value.1;
    }
    combinedAudio, cumulativeMs := PadToSecond(before, seg, dur, combinedAudio, stampsOut, cumulativeMs);
    r := Success((combinedAudio, combinedTimecodes, cumulativeMs));
  }

  /** The variant's clip played twice (`for _ in range(2)`), each time
      followed by its gap of silence. */
  method PlayTwice(ghost before: seq<Segment>, ghost seg: Segment, path: string,
                   dur: map<string, nat>, ghost all: seq<Segment>,
                   audio: seq<AudioItem>, ghost stamps: seq<Stamp>, cum: nat)
    returns (r: Result<(seq<AudioItem>, nat), MissingAsset>)
    requires Available(before, dur) && Playing(Schedule(before, dur), seg, 0, dur, audio, stamps, cum)
    requires |seg.clips| >= 2 && seg.clips[0] == path && seg.clips[1] == path && before + [seg] <= all
    ensures r.Success? ==> Playing(Schedule(before, dur), seg, 2, dur, r.value.0, stamps, r.value.1)
    ensures r.Failure? ==> r.error.path == path && FirstMissing(AllClips(all), dur) == Some(path)
  {
    var combinedAudio := audio;
    var cumulativeMs := cum;
    for k := 0 to 2
      invariant Playing(Schedule(before, dur), seg, k, dur, combinedAudio, stamps, cumulativeMs)
    {
      var played := PlayClipAt(before, seg, k, path, dur, all, combinedAudio, stamps, cumulativeMs);
      if played.Failure? {
        return Failure(played.error);
      }
      combinedAudio, cumulativeMs := played.value.0, played.value.1;
    }
    r := Success((combinedAudio, cumulativeMs));
  }

  /** Loading clip `k` of a segment and appending it with its gap of silence
      (`audio + two_seconds_silence`, and the running time advanced by its
      length and 2000 ms), or failing when it cannot be read; it is then the
      first missing clip of any segment list `all` that starts with the
      segments played so far. */
  method PlayClipAt(ghost before: seq<Segment>, ghost seg: Segment, ghost k: nat, path: string,
                    dur: map<string, nat>, ghost all: seq<Segment>,
                    audio: seq<AudioItem>, ghost stamps: seq<Stamp>, cum: nat)
    returns (r: Result<(seq<AudioItem>, nat), MissingAsset>)
    requires Available(before, dur) && Playing(Schedule(before, dur), seg, k, dur, audio, stamps, cum)
    requires k < |seg.clips| && seg.clips[k] == path && before + [seg] <= all
    ensures r.Success? ==> Playing(Schedule(before, dur), seg, k + 1, dur, r.value.0, stamps, r.value.1)
    ensures r.Failure? ==> r.error.path == path && FirstMissing(AllClips(all), dur) == Some(path)
  {
    if path !in dur {
      MissingInPrefix(before, seg, all, k, dur);
      return Failure(MissingAsset(path));
    }
    var len := dur[path];
    PlayClip(Schedule(before, dur), seg, k, dur, audio, stamps, cum, path, len);
    r := Success((audio + [Clip(path, len), Silence(GapMs)], cum + len + GapMs));
  }

  /** The rounding step: silence up to `((t // 1000) + 1) * 1000` is appended
      and the running time advanced to it, which completes the segment. */
  method PadToSecond(ghost before: seq<Segment>, ghost seg: Segment, dur: map<string, nat>,
                     audio: seq<AudioItem>, ghost stamps: seq<Stamp>, cum: nat)
    returns (audioOut: seq<AudioItem>, cumOut: nat)
    requires Available(before, dur) && Playing(Schedule(before, dur), seg, |seg.clips|, dur, audio, stamps, cum)
    ensures Built(before + [seg], dur, audioOut, stamps, cumOut)
    ensures cumOut % MsPerSecond == 0 && cum < cumOut <= cum + MsPerSecond
  {
    var nearestSecondMs := (cum / MsPerSecond + 1) * MsPerSecond;
    assert nearestSecondMs == NextSecond(cum);
    var silenceNeededMs: nat := nearestSecondMs - cum;
    FinishSegment(before, seg, dur, audio, stamps, cum, silenceNeededMs);
    audioOut := audio + [Silence(silenceNeededMs)];
    cumOut := cum + silenceNeededMs;
  }

  /** The variants of one language of an entry (the loop over `i`), in index
      order. Starting from the schedule of `segs`, it ends with the schedule
      of `segs` followed by the language's segments, or fails on the first of
      their clips that cannot be read. */
  method PlayLanguage(name: string, phrase: string, language: Language, dur: map<string, nat>,
                      ghost segs: seq<Segment>, audio: seq<AudioItem>, ghost stamps: seq<Stamp>,
                      text: string, cum: nat)
    returns (r: Result<(seq<AudioItem>, string, nat), MissingAsset>, ghost stampsOut: seq<Stamp>)
    requires Built(segs, dur, audio, stamps, cum) && text == TimecodeText(stamps)
    ensures var all := segs + SegmentsOf(name, VariantCards(phrase, language));
      && (r.Success? ==> Built(all, dur, r.value.0, stampsOut, r.value.2) && r.value.1 == TimecodeText(stampsOut))
      && (r.Failure? ==> FirstMissing(AllClips(all), dur) == Some(r.error.path))
  {
    ghost var langSegs := SegmentsOf(name, VariantCards(phrase, language));
    var combinedAudio: seq<AudioItem> := audio;
    var combinedTimecodes: string := text;
    var cumulativeMs: nat := cum;
    stampsOut := stamps;
    AppendTakeNone(segs, langSegs);
    for i := 0 to |language.variants|
      invariant Built(segs + langSegs[..i], dur, combinedAudio, stampsOut, cumulativeMs)
      invariant combinedTimecodes == TimecodeText(stampsOut)
    {
      var card := Foreign(phrase, language.code, i, language.variants[i]);
      assert langSegs[i] == SegmentOf(name, card);
      AppendTakeNext(segs, langSegs, i);
      var played;
      played, stampsOut := PlayVariant(name, card, dur, segs + langSegs[..i],
                                       combinedAudio, stampsOut, combinedTimecodes, cumulativeMs);
      if played.Failure? {
        MissingExtends(segs + langSegs[..i + 1], segs + langSegs, dur);
        return played, stampsOut;
      }
      combinedAudio, combinedTimecodes, cumulativeMs := played.value.0, played.value.1, played.value.2;
    }
    TakeAll(langSegs);
    r := Success((combinedAudio, combinedTimecodes, cumulativeMs));
  }

  /** The English card of an entry: stamped, its clip played once, and the
      time padded to the next whole second. Starting from the schedule of
      `before`, it ends with the schedule of `before` and the card's
      segment, or fails when its clip cannot be read. */
  method PlayEnglish(name: string, phrase: string, dur: map<string, nat>,
                     ghost before: seq<Segment>, audio: seq<AudioItem>, ghost stamps: seq<Stamp>,
                     text: string, cum: nat)
    returns (r: Result<(seq<AudioItem>, string, nat), MissingAsset>, ghost stampsOut: seq<Stamp>)
    requires Built(before, dur, audio, stamps, cum) && text == TimecodeText(stamps)
    ensures var after := before + [SegmentOf(name, English(phrase))];
      && (r.Success? ==> Built(after, dur, r.value.0, stampsOut, r.value.2) && r.value.1 == TimecodeText(stampsOut))
      && (r.Failure? ==> FirstMissing(AllClips(after), dur) == Some(r.error.path))
  {
    var english := English(phrase);
    ghost var seg := SegmentOf(name, english);
    var imagePath := ImagePath(name, english);
    var audioPath := AudioPath(name, english);
    assert seg == Segment(imagePath, [audioPath]);
    r, stampsOut := PlayEnglishSegment(before, seg, imagePath, audioPath, dur, audio, stamps, text, cum);
  }

  /** The body of `PlayEnglish` once the paths are known: the image stamped,
      the clip played once, then the padding. */
  method PlayEnglishSegment(ghost before: seq<Segment>, ghost seg: Segment, imagePath: string, audioPath: string,
                            dur: map<string, nat>, audio: seq<AudioItem>, ghost stamps: seq<Stamp>,
                            text: string, cum: nat)
    returns (r: Result<(seq<AudioItem>, string, nat), MissingAsset>, ghost stampsOut: seq<Stamp>)
    requires Built(before, dur, audio, stamps, cum) && text == TimecodeText(stamps)
    requires seg == Segment(imagePath, [audioPath])
    ensures var after := before + [seg];
      && (r.Success? ==> Built(after, dur, r.value.0, stampsOut, r.value.2) && r.value.1 == TimecodeText(stampsOut))
      && (r.Failure? ==> FirstMissing(AllClips(after), dur) == Some(r.error.path))
  {
    var combinedTimecodes;
    combinedTimecodes, stampsOut := StampImage(before, seg, imagePath, dur, audio, stamps, text, cum);
    var played := PlayClipAt(before, seg, 0, audioPath, dur, before + [seg], audio, stampsOut, cum);
    if played.Failure? {
      return Failure(played.error), stampsOut;
    }
    var combinedAudio, cumulativeMs := PadToSecond(before, seg, dur, played.value.0, stampsOut, played.value.1);
    r := Success((combinedAudio, combinedTimecodes, cumulativeMs));
  }

  lemma NoLanguagesYet(name: string, phrase: string, languages: seq<Language>, segs: seq<Segment>)
    ensures segs + SegmentsOf(name, LangCards(phrase, languages[..0])) == segs
  {
    assert |languages[..0]| == 0;
    assert SegmentsOf(name, []) == [];
    assert segs + [] == segs;
  }

  /** The languages of an entry (the loop over `lang`), in declared order.
      Starting from the schedule of `segs`, it ends with the schedule of
      `segs` followed by the segments of all their variants, or fails on the
      first of their clips that cannot be read. */
  method PlayLanguages(name: string, phrase: string, languages: seq<Language>, dur: map<string, nat>,
                       ghost segs: seq<Segment>, audio: seq<AudioItem>, ghost stamps: seq<Stamp>,
                       text: string, cum: nat)
    returns (r: Result<(seq<AudioItem>, string, nat), MissingAsset>, ghost stampsOut: seq<Stamp>)
    requires Built(segs, dur, audio, stamps, cum) && text == TimecodeText(stamps)
    ensures var all := segs + SegmentsOf(name, LangCards(phrase, languages));
      && (r.Success? ==> Built(all, dur, r.value.0, stampsOut, r.value.2) && r.value.1 == TimecodeText(stampsOut))
      && (r.Failure? ==> FirstMissing(AllClips(all), dur) == Some(r.error.path))
  {
    var combinedAudio: seq<AudioItem> := audio;
    var combinedTimecodes: string := text;
    var cumulativeMs: nat := cum;
    stampsOut := stamps;
    NoLanguagesYet(name, phrase, languages, segs);
    for l := 0 to |languages|
      invariant Built(segs + SegmentsOf(name, LangCards(phrase, languages[..l])), dur,
                      combinedAudio, stampsOut, cumulativeMs)
      invariant combinedTimecodes == TimecodeText(stampsOut)
    {
      ghost var done := LangCards(phrase, languages[..l]);
      var played;
      played, stampsOut := PlayLanguage(name, phrase, languages[l], dur, segs + SegmentsOf(name, done),
                                        combinedAudio, stampsOut, combinedTimecodes, cumulativeMs);
      ghost var cards := VariantCards(phrase, languages[l]);
      LangCardsSnoc(phrase, languages, l);
      SegmentsAppend(name, done, cards);
      AppendAssoc(segs, SegmentsOf(name, done), SegmentsOf(name, cards));
      if played.Failure? {
        LangCardsPrefix(phrase, languages, l + 1);
        SegmentsPrefix(name, done + cards, LangCards(phrase, languages));
        PrefixAppend(segs, SegmentsOf(name, done + cards), SegmentsOf(name, LangCards(phrase, languages)));
        MissingExtends(segs + SegmentsOf(name, done + cards), segs + SegmentsOf(name, LangCards(phrase, languages)), dur);
        return played, stampsOut;
      }
      combinedAudio, combinedTimecodes, cumulativeMs := played.value.0, played.value.1, played.value.2;
    }
    TakeAll(languages);
    r := Success((combinedAudio, combinedTimecodes, cumulativeMs));
  }

  /** One entry of the dictionary (the body of the loop over entries): its
      English card, then its languages in declared order. Starting from the
      schedule of `segs`, it ends with the schedule of `segs` followed by the
      entry's segments, or fails on the first of their clips that cannot be
      read. */
  method PlayEntry(name: string, entry: Entry, dur: map<string, nat>,
                   ghost segs: seq<Segment>, audio: seq<AudioItem>, ghost stamps: seq<Stamp>,
                   text: string, cum: nat)
    returns (r: Result<(seq<AudioItem>, string, nat), MissingAsset>, ghost stampsOut: seq<Stamp>)
    requires Built(segs, dur, audio, stamps, cum) && text == TimecodeText(stamps)
    ensures var all := segs + SegmentsOf(name, EntryCards(entry));
      && (r.Success? ==> Built(all, dur, r.value.0, stampsOut, r.value.2) && r.value.1 == TimecodeText(stampsOut))
      && (r.Failure? ==> FirstMissing(AllClips(all), dur) == Some(r.error.path))
  {
    ghost var first := [SegmentOf(name, English(entry.phrase))];
    ghost var rest := SegmentsOf(name, LangCards(entry.phrase, entry.languages));
    SegmentsSnoc(name, [], English(entry.phrase));
    assert SegmentsOf(name, [English(entry.phrase)]) == first by {
      assert [] + [English(entry.phrase)] == [English(entry.phrase)];
    }
    SegmentsAppend(name, [English(entry.phrase)], LangCards(entry.phrase, entry.languages));
    assert SegmentsOf(name, EntryCards(entry)) == first + rest;
    AppendAssoc(segs, first, rest);
    var played;
    played, stampsOut := PlayEnglish(name, entry.phrase, dur, segs, audio, stamps, text, cum);
    if played.Failure? {
      assert segs + first <= segs + first + rest;
      MissingExtends(segs + first, segs + first + rest, dur);
      return played, stampsOut;
    }
    r, stampsOut := PlayLanguages(name, entry.phrase, entry.languages, dur, segs + first,
                                  played.value.0, stampsOut, played.value.1, played.value.2);
  }

  /** The run over dictionary `name` with entries `d`, where `dur` gives the
      length in milliseconds of every clip that can be read. It fails on the
      first clip, in loading order, that cannot be read; otherwise it
      produces exactly the schedule of the dictionary's cards, whose audio
      lasts exactly the final running time, a whole number of seconds. */
  method GenerateTimecodesAndAudio(name: string, d: Dict, dur: map<string, nat>)
    returns (r: Result<Output, MissingAsset>)
    ensures r.Failure? <==> FirstMissing(AllClips(Plan(name, d)), dur).Some?
    ensures r.Failure? ==> FirstMissing(AllClips(Plan(name, d)), dur) == Some(r.error.path)
    ensures r.Success? ==> Available(Plan(name, d), dur) && var tr := Schedule(Plan(name, d), dur);
      r.value == Output(tr.audio, TimecodeText(tr.stamps), tr.endMs)
    ensures r.Success? ==> Duration(r.value.audio) == r.value.endMs && r.value.endMs % MsPerSecond == 0
  {
    var combinedAudio: seq<AudioItem> := [];
    var combinedTimecodes: string := "";
    var cumulativeMs: nat := 0;
    ghost var stamps: seq<Stamp> := [];
    for p := 0 to |d|
      invariant Built(SegmentsOf(name, Cards(d[..p])), dur, combinedAudio, stamps, cumulativeMs)
      invariant combinedTimecodes == TimecodeText(stamps)
    {
      ghost var before := Cards(d[..p]);
      ghost var next := before + EntryCards(d[p]);
      TakeTake(d, p);
      assert Cards(d[..p + 1]) == next;
      SegmentsAppend(name, before, EntryCards(d[p]));
      var played;
      played, stamps := PlayEntry(name, d[p], dur, SegmentsOf(name, before),
                                  combinedAudio, stamps, combinedTimecodes, cumulativeMs);
      if played.Failure? {
        CardsPrefix(d, p + 1);
        SegmentsPrefix(name, next, Cards(d));
        MissingExtends(SegmentsOf(name, next), Plan(name, d), dur);
        return Failure(played.error);
      }
      combinedAudio, combinedTimecodes, cumulativeMs := played.value.0, played.value.1, played.value.2;
    }
    TakeAll(d);
    var plan := Plan(name, d);
    NothingMissing(plan, dur);
    DurationMatchesCounter(plan, dur);
    StampsOnWholeSeconds(plan, dur);
    r := Success(Output(combinedAudio, combinedTimecodes, cumulativeMs));
  }
}

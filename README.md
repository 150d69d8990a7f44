# Language-learning slideshow: a verified model of its timeline and text core

The program turns a phrase dictionary into a video. Each English phrase has,
per language, a list of translation variants, and each variant may carry a
romanization and a note. Two steps are modelled here.

- **Asset generation** (`generate.py`) renders one image and one speech clip
  per card (one card per English phrase and one per variant). For Mandarin
  variants it also renders a spelled-out tone breakdown of the romanization
  (`breakdown/zh.py`).
- **Timeline assembly** (`slider.py`) plays the cards in dictionary order:
  - it stamps each card's image at the current time;
  - it appends the card's clips, each followed by two seconds of silence;
  - it pads with silence up to the next whole second;
  - it emits the combined audio and an `HH:MM:SS<tab>image` timecode listing.

The model consists of these modules:

- `Dictionary`: the parsed dictionary and the card order both programs walk.
- `Assets`: the file naming scheme the two programs share.
- `Timecode`: `format_time`, including Python's `timedelta` string form.
- `Timeline`: the schedule as a specification. It holds the audio, the stamps
  and the running time that playing a sequence of segments produces, and the
  laws they obey.
- `Slider`: `generate_timecodes_and_audio` as an imperative builder. It is
  proved equal to that specification.
- `Pinyin`: `get_tone` and `process_pinyin_phrase`.
- `Generate`:
  - the ffmpeg `drawtext` filter text and the filter list of `create_image`;
  - the breakdown speech of `generate_tts`;
  - the image and audio jobs of `process_dictionary`.
- `Text`, `Sequences` and `Wrappers`: helpers. They cover Python's `str(int)`,
  `split`, `replace`, `zfill` and `join`, some sequence lemmas, and
  `Option`/`Result`.

Clip decoding is replaced by a map from clip path to its length in
milliseconds. A path missing from the map is a clip that cannot be read.

Points where the code's behaviour is easy to misread:

- **Rounding.** The padding step at slider.py:44 computes
  `(t // 1000 + 1) * 1000`, which is floor plus one, not a ceiling. The
  comment above it (slider.py:40-43) speaks of the next whole second; an
  already whole-second time therefore advances a full second
  (`Timeline.NextSecond`, `Timeline.PaddingLaw`).
- **Missing assets.** slider.py opens only audio files, so `MissingAsset`
  names audio clips only.
- **Variant numbering.** The docstring at generate.py:150 numbers
  translations from 1 to n, but the loop at generate.py:170-172 numbers them
  from 0 (`Assets.ZeroBasedNames`).
- **Times of a day or more.** `format_time` is modelled for every input. From
  one day on, Python's `timedelta` string carries an `"N day(s), "` prefix
  that ends up in the hours field (`Timecode.FormatTimeFromOneDay`). The
  builder therefore needs no bound on the running time.

## Model

| member | source | states |
|---|---|---|
| Timecode.FormatTime | slider.py:7-13 | below one day the stamp is `HH:MM:SS`: eight characters with colons at 2 and 5 and digits elsewhere; it reads back as `ms // 1000` seconds, with hours `s/3600`, minutes `s%3600/60` and seconds `s%60` |
| Timecode.SplitTimedelta | slider.py:9-10 | splitting Python's `str(timedelta(seconds=s))` on `:` gives three fields; the hours field carries the day prefix when there is one |
| Timecode.FormatTimeFromOneDay | slider.py:7-13 | from one day on the result is `"N day(s), H:MM:SS"` and not a two-digit hours field |
| Timecode.AlignedStampExact | slider.py:8 | a whole-second stamp below one day reads back as exactly its millisecond value, so the `// 1000` loses nothing |
| Text.Decimal | slider.py:57-58 | `str(i)` of a natural number: digits only, no leading zero, and its value is `i` |
| Text.SplitOnJoin | slider.py:10 | `split(sep)` inverts `sep.join(parts)` when no part holds `sep` |
| Timeline.NextSecond | slider.py:44 | `(t // 1000 + 1) * 1000` is a multiple of 1000 strictly above `t`, and at most 1000 above it |
| Timeline.PaddingLaw | slider.py:44-50 | each rounding step adds between 1 and 1000 ms of silence and lands on the smallest multiple of 1000 strictly above the time |
| Timeline.DurationMatchesCounter | slider.py:36-38 | the combined audio lasts exactly as long as `cumulative_time_ms` says |
| Timeline.StampsOnWholeSeconds | slider.py:31 | every stamp and the final time are multiples of 1000 ms |
| Timeline.StampsSpaced | slider.py:36-50 | when every segment plays a clip, each stamp is at least 3000 ms after the one before, and the track runs at least 3000 ms past the last stamp |
| Timeline.SpacedStep | slider.py:31-50 | playing one more segment with a clip after a track ending on a whole second keeps every stamp at least 3000 ms before the next and before the end |
| Timeline.StampsFollowSegments | slider.py:31-32 | there is one stamp per segment, in order; stamp `i` is taken where the first `i` segments end and names segment `i`'s image |
| Timeline.StampsInSync | slider.py:31-38 | stamp `i` equals the length of the audio scheduled for the first `i` segments, and that audio is a prefix of the whole track |
| Timeline.AudioPrefix | slider.py:36 | the audio of the first `k` segments is a prefix of the track and ends no later |
| Timeline.StepExtends | slider.py:36-50 | playing a segment only appends audio and never moves the running time back |
| Timeline.PlanTimeline | slider.py:25-62 | for a dictionary the listing has one stamp per card in visiting order, naming the card's image path; stamps are whole seconds at least 3000 ms apart, and the audio length equals the counter |
| Timeline.TrackShape | slider.py:25-84 | for any segments that each play a clip: one stamp per segment naming its image, on whole seconds, at least 3000 ms apart, and audio as long as the running time |
| Timeline.VariantAudio | slider.py:66-75 | a variant plays its clip and a gap twice, then the `-breakdown.mp3` clip and a gap exactly when the language is `zh-CN` |
| Timeline.EmptyDictionary | slider.py:19-21 | an empty dictionary gives empty audio, time 0 and an empty listing |
| Timeline.FirstMissing | slider.py:35 | the first path in loading order that has no length; `None` exactly when every path has one |
| Timeline.NothingMissing | slider.py:35 | no clip is missing exactly when every segment's clips have lengths |
| Timeline.MissingExtends | slider.py:35 | a clip missing from a prefix of the segments is the first missing clip of the whole list |
| Timeline.ClipsAudioDuration | slider.py:36-38 | the clips of a segment and their gaps last at least 2000 ms per clip |
| Slider.PlayVariant | slider.py:57-84 | one variant, from the schedule of the segments before it: it ends with the schedule extended by the variant's segment and its timecode line, or fails on the first of its clips that cannot be read, which is also the first missing clip of the dictionary |
| Slider.PlayVariantSegment | slider.py:61-84 | with the variant's paths known: stamp, the clip twice, the breakdown clip when Mandarin, padding; the schedule grows by exactly that segment, or the first unreadable clip is reported |
| Slider.PlayTwice | slider.py:66-70 | the variant's clip is loaded and appended with its gap twice, advancing the schedule by two clips, or the clip is the first missing one |
| Slider.PlayClipAt | slider.py:35-38 | loading a clip either appends it and its two-second gap and advances the time by its length plus 2000 ms, or fails naming that clip, which is then the first missing clip of the whole plan |
| Slider.PadToSecond | slider.py:44-50 | the padding lands on a multiple of 1000 strictly above the time and at most 1000 ms later, completing the segment's schedule |
| Slider.StampImage | slider.py:31-32 | the timecode line `format_time(t)<tab>image` is appended, and the segment's stamp is the time at which the schedule so far ends |
| Slider.PlayLanguage | slider.py:56-84 | the loop over one language's variants extends the schedule by the language's segments, or fails on the first missing clip |
| Slider.PlayLanguages | slider.py:54-84 | the loop over a phrase's languages, in declared order, likewise |
| Slider.PlayEnglish | slider.py:25-50 | the English phrase's segment: stamp, clip, gap and padding extend the schedule, or the phrase's clip is missing |
| Slider.PlayEnglishSegment | slider.py:31-50 | with the phrase's paths known: stamp, the clip once, padding; the schedule grows by exactly that segment, or the clip is reported missing |
| Slider.PlayEntry | slider.py:25-84 | one dictionary entry: the English segment, then all its variants |
| Slider.GenerateTimecodesAndAudio | slider.py:16-88 | fails exactly when some clip of the plan cannot be read, naming the first in loading order; otherwise it outputs the schedule's audio, the listing of its stamps and the final time; the audio length equals that time, which is a whole number of seconds |
| Dictionary.CardsPrefix | slider.py:25 | the cards of the first entries are a prefix of all the cards |
| Assets.ReplaceExtension | slider.py:73 | `replace(".mp3", "-breakdown.mp3")` on `stem.mp3` gives `stem-breakdown.mp3` when the stem holds no `.mp3` |
| Assets.BreakdownPathOfCard | generate.py:119 | the breakdown clip of a card sits beside its audio file as `<stem>-breakdown.mp3` |
| Assets.ZeroBasedNames | generate.py:170-175 | variant indices start at 0: the first variant of a language has the stem `{phrase}_{lang}0`, the second `{phrase}_{lang}1` |
| Pinyin.GetTone | breakdown/zh.py:5-20 | the tone of the first table character scanning left to right; `None` exactly when no character is in the table; always 1 to 4 |
| Pinyin.GetToneExamples | breakdown/zh.py:7-14 | "de" has no tone, "Nǐ" has tone 3, and the uppercase marked vowels "Ǎ" and "Ā" are not in the table |
| Pinyin.Words | breakdown/zh.py:26 | `split()` yields non-empty words without whitespace |
| Pinyin.WordsKeepText | breakdown/zh.py:26 | the words concatenated are the phrase with its whitespace removed |
| Pinyin.WordsAtSpace | breakdown/zh.py:26 | a whitespace character separates words: the words of `a + [c] + b` are those of `a` then those of `b` |
| Pinyin.NoWords | breakdown/zh.py:26 | a phrase has no words exactly when it is empty or all whitespace |
| Pinyin.SingleWord | breakdown/zh.py:26 | a non-empty string without whitespace is one word |
| Pinyin.LettersShape | breakdown/zh.py:32 | for a word of n ≥ 1 characters, `letters` has length 3n-2: the word's characters at positions 0, 3, 6, …, separated by `", "` |
| Pinyin.ProcessPinyinPhrase | breakdown/zh.py:24-35 | one record per word, in order, each with the word's letters and `get_tone(word)` |
| Pinyin.BreakdownNiHao | breakdown/zh.py:24-35 | "nǐ hǎo" gives `[("n, ǐ", 3), ("h, ǎ, o", 3)]` |
| Pinyin.BreakdownDe | breakdown/zh.py:20 | "de" gives one record with letters "d, e" and no tone |
| Generate.FirstOf | generate.py:22-23 | the first of a list of characters that occurs in the text; `None` exactly when none does |
| Generate.CreateDrawtextString | generate.py:10-31 | succeeds exactly when the text holds none of `:`, `{` and `'`; the error names the first of them in that order; on success it is exactly `drawtext=text='…':fontfile=assets/fonts/…:fontcolor=white:fontsize=…:x=…:y=…` |
| Generate.FormatIsJoin | generate.py:26-31 | the filter is its six options joined by `:` |
| Generate.FormatOptions | generate.py:22-31 | with legal text and no `:` in the other values, splitting the filter on `:` gives back its six options, which is why `:` is refused |
| Generate.CheckOrder | generate.py:22-24 | "{it's}" is refused for `{`, "12:30" for `:` |
| Generate.FontFor | generate.py:42-44 | the Devanagari font exactly for `hi`, the CJK font otherwise |
| Generate.LayoutShape | generate.py:47-63 | an English card gets one centred size-100 filter; a translation gets the translation, the header at (10, 10) size 60, the romanization at `+ 120` if present, and the note if present, at `+ 200` exactly when a romanization precedes it; no position holds `:` |
| Generate.SubheadingsShape | generate.py:55-63 | the romanization first at `+ 120`, the note last, at `+ 200` exactly when a romanization precedes it, and no position holds `:` |
| Generate.RenderAllMeaning | generate.py:48-63 | rendering succeeds exactly when every text is legal, then gives each filter formatted in order; otherwise it gives the error of the first illegal text |
| Generate.RenderStopped | generate.py:48-63 | once a text is refused, later filters change nothing |
| Generate.CreateImageFilter | generate.py:41-65 | the imperative assembly with the `previous_subheading` flag equals the specified filter graph |
| Generate.AddSubheadings | generate.py:55-63 | the `previous_subheading` flag picks the note's offset so that the filters added equal the rendering of the specified subheadings, or the first refusal among them |
| Generate.FiltergraphMeaning | generate.py:41-65 | the filter graph exists exactly when every text of the layout is legal, and is then the formatted filters joined by `", "` in order |
| Generate.FullFiltergraph | generate.py:50-65 | a translation with romanization and note gives the four filters, romanization at `+ 120` and note at `+ 200`, joined by `", "` |
| Generate.PlainFiltergraph | generate.py:47-48 | an English phrase gives a single centred size-100 filter |
| Generate.BreakdownSpeech | generate.py:115-117 | the loop builds the concatenation, in order, of `"{letters}, tone {tone}."` per syllable |
| Generate.SpeechAppend | generate.py:116-117 | the speech of two breakdowns in a row is the concatenation of their speeches |
| Generate.ToneWords | generate.py:117 | each tone word spoken is one of "1" to "4" or "None" |
| Generate.SpeechNiHao | generate.py:115-117 | "nǐ hǎo" is read as "n, ǐ, tone 3.h, ǎ, o, tone 3." |
| Generate.SilentBreakdown | generate.py:115-117 | an all-whitespace romanization is read as nothing |
| Generate.GenerateTts | generate.py:97-119 | the card's text is saved in its language to the output file; only for `zh-CN` is the English breakdown speech of the romanization also saved, to the `-breakdown.mp3` path; a Mandarin object without a romanization fails after the first save |
| Generate.VariantFiles | generate.py:172-175 | variant `i` of a language is drawn and spoken in that language, from its translation object, into `…_{lang}{i}.png` and `.mp3` |
| Generate.EnglishFiles | generate.py:159-164 | an English phrase is drawn and spoken in `en` into `{phrase}.png` and `.mp3` |
| Generate.VariantJobs | generate.py:170-177 | the loop over a language's variants appends exactly the jobs of their cards |
| Generate.VariantJob | generate.py:171-177 | one variant appends exactly its card's jobs: the image unless it exists, then the audio unless it exists, always both with `regenerate` |
| Generate.LanguagesJobs | generate.py:168-177 | the loop over a phrase's languages appends exactly the jobs of their cards |
| Generate.EntryJobs | generate.py:157-177 | one entry's jobs: the English card's, then its variants' |
| Generate.ProcessDictionary | generate.py:155-179 | the job list is the jobs of every card, in visiting order |
| Generate.JobsAppend | generate.py:157-177 | the jobs of two card lists in a row are their jobs concatenated |
| Generate.RegenerateEverything | generate.py:160-177 | with `regenerate`, card `i` gets exactly two jobs, image then audio, at positions `2i` and `2i+1` |
| Generate.CacheSkipsExisting | generate.py:160-177 | without `regenerate`, no job targets an existing file, and every missing image or audio gets its job |
| Generate.AssetsMatchPlan | generate.py:159-175 | the image and audio the generator names for card `i` are the image and first clip the timeline plays for segment `i`; every other clip is that clip or, for `zh-CN`, its breakdown |
| Generate.JobsCoverPlan | generate.py:159-177 | with `regenerate`, job `2i` draws segment `i`'s image and job `2i+1` speaks its first clip, in the card's language |

## Left out

- Audio decoding and export. `AudioSegment.from_file` is a map from path to length in milliseconds. Sample-level rounding inside the audio library is not modelled. The two export calls (slider.py:86-88) are the returned `Output` value, and no file is written.
- Reading the dictionary. `json.load` is replaced by an already-parsed `Dict` in key order. The dictionary name derived from the file name (`os.path.splitext(os.path.basename(...))`) is a parameter.
- Image files in the timeline. The builder never opens them, so a missing image is not an error in the model either.
- ffmpeg and speech synthesis. The ffmpeg subprocess (generate.py:67-84) and the gTTS calls are represented by the filter text and by the `Utterance` values they would receive. Nothing is rendered or synthesized.
- Concurrency. The asyncio task list and `asyncio.gather` (generate.py:94, 179) become a sequence of `Job`s in scheduling order. `os.path.exists` becomes a set of existing paths.
- Generate.GenerateTts: both Python exceptions become one error value, `MissingRomanization`. One is the `TypeError` that indexing a plain English string raises. The other is the `KeyError` of a Mandarin object without a romanization.
- Generate.GenerateTts: the speech service's refusal of empty text is not modelled. An empty translation, or a romanization made only of whitespace (whose breakdown speech is `""`), is recorded as a saved `Utterance`. In the program the speech library raises instead, so no `-breakdown.mp3` is written and the timeline later fails on that clip.
- Text.ZFill: only the digit strings and day-prefixed fields that `format_time` produces are considered. The sign handling of Python's `zfill` is not modelled.
- app.py, main.py and the video compositing script: these are the user interface, the command-line driver and an external tool. They are not part of this model.
- The shadowed loop variable `i` at slider.py:66 has no effect on the paths, which were computed at slider.py:57-58. The model plays the clip twice without it.

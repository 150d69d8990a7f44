/** The asset naming scheme shared by generate.py (which writes the files)
    and slider.py (which reads them): for dictionary `name`, the English
    phrase `p` has `out/name/images/p.png` and `out/name/audios/p.mp3`, the
    variant with zero-based index `i` of language `lang` has the stem
    `p_lang{i}`, and a Mandarin variant's spelled-out tone breakdown is its
    audio path with `.mp3` replaced by `-breakdown.mp3`. */
module Assets {
  import opened Text
  import opened Dictionary

  /** The language code whose variants also get a tone-breakdown clip. */
  const Mandarin: string := "zh-CN"

  /** The extension of audio files, and what the breakdown clip replaces it by. */
  const Mp3: string := ".mp3"
  const BreakdownMp3: string := "-breakdown.mp3"

  /** The file stem of a card: the phrase, or `phrase_lang{index}`. */
  function Stem(c: Card): string
  {
    match c
    case English(p) => p
    case Foreign(p, lang, i, _) => p + "_" + lang + Decimal(i)
  }

  /** The language a card's image header and speech use: English cards use `en`. */
  function CardLanguage(c: Card): string
  {
    match c
    case English(_) => "en"
    case Foreign(_, lang, _, _) => lang
  }

  function ImagePath(name: string, c: Card): string
  {
    "out/" + name + "/images/" + Stem(c) + ".png"
  }

  function AudioPath(name: string, c: Card): string
  {
    "out/" + name + "/audios/" + Stem(c) + Mp3
  }

  /** `audio_path.replace(".mp3", "-breakdown.mp3")`. */
  function BreakdownPath(audioPath: string): string
  {
    ReplaceAll(audioPath, Mp3, BreakdownMp3)
  }

  /** Whether `pat` occurs somewhere in `s`. */
  predicate HasInfix(s: string, pat: string)
    decreases |s|
  {
    |s| >= |pat| && (s[..|pat|] == pat || (|s| > 0 && HasInfix(s[1..], pat)))
  }

  /** When the part of the path before the extension holds no `.mp3`, the
      replacement touches the extension only: the breakdown clip sits beside
      the variant's clip as `<stem>-breakdown.mp3`. */
  lemma {:induction false} ReplaceExtension(s: string)
    requires !HasInfix(s, Mp3)
    ensures BreakdownPath(s + Mp3) == s + BreakdownMp3
    decreases |s|
  {
    var t := s + Mp3;
    if |s| == 0 {
      assert t == Mp3 && t[4..] == [];
    } else {
      assert t[..4] != Mp3 by {
        if |s| >= 4 {
          assert t[..4] == s[..4];
        } else {
          assert t[..4][|s|] == '.' && Mp3[|s|] != '.';
        }
      }
      assert t[1..] == s[1..] + Mp3;
      ReplaceExtension(s[1..]);
    }
  }

  /** The breakdown clip of a card's audio file, as both programs name it. */
  lemma BreakdownPathOfCard(name: string, c: Card)
    requires !HasInfix("out/" + name + "/audios/" + Stem(c), Mp3)
    ensures BreakdownPath(AudioPath(name, c)) == "out/" + name + "/audios/" + Stem(c) + BreakdownMp3
  {
    ReplaceExtension("out/" + name + "/audios/" + Stem(c));
  }

  /** The variant index in a file name is the zero-based position in the
      language's list: the first variant of language `lang` for phrase `p`
      has the stem `p_lang0`, the second `p_lang1`. */
  lemma ZeroBasedNames(p: string, lang: string, first: Variant, second: Variant)
    ensures Stem(Foreign(p, lang, 0, first)) == p + "_" + lang + "0"
    ensures Stem(Foreign(p, lang, 1, second)) == p + "_" + lang + "1"
  {
    assert Decimal(0) == "0" && Decimal(1) == "1";
  }
}

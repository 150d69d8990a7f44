/** Pinyin tone decomposition (breakdown/zh.py): a romanized Mandarin phrase
    becomes one record per whitespace-separated syllable, holding the
    syllable's characters joined by `", "` and the tone of its first
    tone-marked vowel. */
module Pinyin {
  import opened Wrappers
  import opened Text
  import opened Sequences

  /** The fixed table from tone-marked lowercase vowels to tones: macron 1,
      acute 2, caron 3, grave 4, for a, e, i, o, u and ü. */
  const ToneMap: map<char, nat> := map[
    'ā' := 1, 'á' := 2, 'ǎ' := 3, 'à' := 4,
    'ē' := 1, 'é' := 2, 'ě' := 3, 'è' := 4,
    'ī' := 1, 'í' := 2, 'ǐ' := 3, 'ì' := 4,
    'ō' := 1, 'ó' := 2, 'ǒ' := 3, 'ò' := 4,
    'ū' := 1, 'ú' := 2, 'ǔ' := 3, 'ù' := 4,
    'ǖ' := 1, 'ǘ' := 2, 'ǚ' := 3, 'ǜ' := 4
  ]

  /** `get_tone`: the tone of the first character, scanning left to right,
      that is in the table; `None` when no character is. */
  function GetTone(pinyin: string): (r: Option<nat>)
    ensures r.None? <==> forall i :: 0 <= i < |pinyin| ==> pinyin[i] !in ToneMap
    ensures r.Some? ==> 1 <= r.value <= 4
    ensures forall i :: (0 <= i < |pinyin| && pinyin[i] in ToneMap
                         && forall j :: 0 <= j < i ==> pinyin[j] !in ToneMap)
                        ==> r == Some(ToneMap[pinyin[i]])
  {
    if |pinyin| == 0 then None
    else if pinyin[0] in ToneMap then Some(ToneMap[pinyin[0]])
    else
      var r := GetTone(pinyin[1..]);
      assert forall i :: 1 <= i < |pinyin| ==> pinyin[i] == pinyin[1..][i - 1];
      r
  }

  /** The tone table covers lowercase vowels only: the marked capitals, and a
      syllable without any mark such as the neutral-tone "de", have no tone;
      "nǐ" takes the caron's tone 3 even though it starts with an unmarked
      letter. */
  lemma GetToneExamples()
    ensures GetTone("de") == None
    ensures GetTone("Nǐ") == Some(3)
    ensures GetTone("Ǎ") == None && GetTone("Ā") == None
  {
    NoToneDe();
    ToneNi();
    NoToneCapitals();
  }

  lemma ToneNi()
    ensures GetTone("Nǐ") == Some(3)
  {
    assert "Nǐ"[0] == 'N' && 'N' !in ToneMap && "Nǐ"[1] == 'ǐ';
  }

  lemma NoToneCapitals()
    ensures GetTone("Ǎ") == None && GetTone("Ā") == None
  {
    assert "Ǎ"[0] == 'Ǎ' && 'Ǎ' !in ToneMap;
    assert "Ā"[0] == 'Ā' && 'Ā' !in ToneMap;
  }

  /** Python's `str.isspace()`: the characters `str.split()` separates on. */
  predicate IsSpace(c: char) {
    || '\t' <= c <= '\r' || '\U{1c}' <= c <= '\U{1f}' || c == ' ' || c == '\U{85}'
    || c == '\U{a0}' || c == '\U{1680}' || '\U{2000}' <= c <= '\U{200a}'
    || c == '\U{2028}' || c == '\U{2029}' || c == '\U{202f}' || c == '\U{205f}' || c == '\U{3000}'
  }

  predicate NoSpace(s: string) {
    forall i :: 0 <= i < |s| ==> !IsSpace(s[i])
  }

  /** The length of the longest prefix of `s` without whitespace. */
  function WordEnd(s: string): (n: nat)
    ensures n <= |s| && NoSpace(s[..n])
    ensures n < |s| ==> IsSpace(s[n])
  {
    if |s| == 0 || IsSpace(s[0]) then 0
    else
      var n := 1 + WordEnd(s[1..]);
      assert s[..n] == [s[0]] + s[1..][..n - 1];
      n
  }

  /** `phrase.split()`: the maximal runs of non-whitespace characters, in
      order; every word is non-empty and holds no whitespace. */
  function Words(s: string): (r: seq<string>)
    ensures forall k :: 0 <= k < |r| ==> |r[k]| > 0 && NoSpace(r[k])
    decreases |s|
  {
    if |s| == 0 then []
    else if IsSpace(s[0]) then Words(s[1..])
    else
      var n := WordEnd(s);
      [s[..n]] + Words(s[n..])
  }

  /** `s` with every whitespace character removed. */
  function Strip(s: string): (r: string)
    ensures NoSpace(r)
  {
    if |s| == 0 then []
    else if IsSpace(s[0]) then Strip(s[1..])
    else [s[0]] + Strip(s[1..])
  }

  lemma {:induction false} StripAppend(a: string, b: string)
    ensures Strip(a + b) == Strip(a) + Strip(b)
    decreases |a|
  {
    if |a| > 0 {
      StripAppend(a[1..], b);
      assert (a + b)[0] == a[0] && (a + b)[1..] == a[1..] + b;
      if !IsSpace(a[0]) {
        calc {
          Strip(a + b);
          [a[0]] + Strip(a[1..] + b);
          [a[0]] + (Strip(a[1..]) + Strip(b));
          ([a[0]] + Strip(a[1..])) + Strip(b);
        }
      }
    } else {
      assert a + b == b;
    }
  }

  lemma {:induction false} StripNoSpace(a: string)
    requires NoSpace(a)
    ensures Strip(a) == a
    decreases |a|
  {
    if |a| > 0 {
      StripNoSpace(a[1..]);
    }
  }

  /** Splitting keeps every non-whitespace character, in order, and nothing
      else: the words concatenated are the phrase with its whitespace removed. */
  lemma {:induction false} WordsKeepText(s: string)
    ensures Join(Words(s), "") == Strip(s)
    decreases |s|
  {
    if |s| == 0 {
    } else if IsSpace(s[0]) {
      WordsKeepText(s[1..]);
    } else {
      var n := WordEnd(s);
      WordsKeepText(s[n..]);
      JoinUnseparated([s[..n]] + Words(s[n..]));
      assert ([s[..n]] + Words(s[n..]))[1..] == Words(s[n..]);
      assert s == s[..n] + s[n..];
      StripAppend(s[..n], s[n..]);
      StripNoSpace(s[..n]);
    }
  }

  /** An empty or all-whitespace phrase has no words, and only such a phrase. */
  lemma {:induction false} NoWords(s: string)
    ensures Words(s) == [] <==> forall i :: 0 <= i < |s| ==> IsSpace(s[i])
    decreases |s|
  {
    if |s| > 0 {
      NoWords(s[1..]);
      assert forall i :: 1 <= i < |s| ==> s[i] == s[1..][i - 1];
    }
  }

  /** A whitespace character separates words: splitting `a`, the space and
      `b` gives the words of `a` followed by the words of `b`. */
  lemma {:induction false} WordsAtSpace(a: string, c: char, b: string)
    requires IsSpace(c)
    ensures Words(a + [c] + b) == Words(a) + Words(b)
    decreases |a|
  {
    var s := a + [c] + b;
    if |a| == 0 {
      assert s[0] == c && s[1..] == b;
    } else if IsSpace(a[0]) {
      assert s[0] == a[0] && s[1..] == a[1..] + [c] + b;
      WordsAtSpace(a[1..], c, b);
    } else {
      var m := WordEnd(a);
      WordEndPrefix(a, [c] + b);
      assert s == a + ([c] + b);
      assert s[0] == a[0] && WordEnd(s) == m;
      assert s[..m] == a[..m];
      var rest := a[m..];
      assert s[m..] == rest + [c] + b;
      WordsAtSpace(rest, c, b);
      assert Words(s) == [a[..m]] + (Words(rest) + Words(b));
      assert Words(a) == [a[..m]] + Words(rest);
      AppendAssoc([a[..m]], Words(rest), Words(b));
    }
  }

  /** The first word of `a + b` ends where the first word of `a` does, when
      `b` starts with whitespace. */
  lemma {:induction false} WordEndPrefix(a: string, b: string)
    requires |b| > 0 && IsSpace(b[0])
    ensures WordEnd(a + b) == WordEnd(a)
    decreases |a|
  {
    if |a| > 0 && !IsSpace(a[0]) {
      assert (a + b)[1..] == a[1..] + b;
      WordEndPrefix(a[1..], b);
    }
  }

  /** `', '.join(list(word))`. */
  function Letters(word: string): string
  {
    Join(seq(|word|, i requires 0 <= i < |word| => [word[i]]), ", ")
  }

  /** The letters string of a word of n >= 1 characters has 3n - 2
      characters: the word's characters at positions 0, 3, 6, ... with
      `", "` between them. */
  lemma {:induction false} LettersShape(word: string)
    ensures |word| == 0 ==> Letters(word) == ""
    ensures |word| >= 1 ==> |Letters(word)| == 3 * |word| - 2
    ensures forall k :: 0 <= k < |Letters(word)| ==>
      Letters(word)[k] == (if k % 3 == 0 then word[k / 3] else if k % 3 == 1 then ',' else ' ')
    decreases |word|
  {
    var parts := seq(|word|, i requires 0 <= i < |word| => [word[i]]);
    if |word| >= 2 {
      var rest := word[1..];
      LettersShape(rest);
      assert parts[1..] == seq(|rest|, i requires 0 <= i < |rest| => [rest[i]]);
      var r := Letters(word);
      assert r == [word[0]] + ", " + Letters(rest);
      forall k | 3 <= k < |r|
        ensures r[k] == if k % 3 == 0 then word[k / 3] else if k % 3 == 1 then ',' else ' '
      {
        assert r[k] == Letters(rest)[k - 3];
        assert (k - 3) % 3 == k % 3 && (k - 3) / 3 == k / 3 - 1;
      }
    }
  }

  /** One element of the breakdown: the letters of a syllable and its tone. */
  datatype Syllable = Syllable(letters: string, tone: Option<nat>)

  /** The breakdown `process_pinyin_phrase` promises: one record per word,
      in order, with the word's letters and its tone. */
  function Breakdown(phrase: string): seq<Syllable>
  {
    var words := Words(phrase);
    seq(|words|, i requires 0 <= i < |words| => Syllable(Letters(words[i]), GetTone(words[i])))
  }

  /** `process_pinyin_phrase`: appends one record per word to the breakdown
      list. */
  method ProcessPinyinPhrase(phrase: string) returns (breakdown: seq<Syllable>)
    ensures |breakdown| == |Words(phrase)|
    ensures forall i :: 0 <= i < |breakdown| ==>
      breakdown[i] == Syllable(Letters(Words(phrase)[i]), GetTone(Words(phrase)[i]))
  {
    var words := Words(phrase);
    breakdown := [];
    for k := 0 to |words|
      invariant |breakdown| == k
      invariant forall i :: 0 <= i < k ==> breakdown[i] == Syllable(Letters(words[i]), GetTone(words[i]))
    {
      var word := words[k];
      breakdown := breakdown + [Syllable(Letters(word), GetTone(word))];
    }
  }

  /** The example phrase "nǐ hǎo": two syllables, both in the third tone. */
  lemma BreakdownNiHao()
    ensures Breakdown("nǐ hǎo") == [Syllable("n, ǐ", Some(3)), Syllable("h, ǎ, o", Some(3))]
  {
    WordsNiHao();
    SyllableNi();
    SyllableHao();
    BreakdownOfTwo("nǐ hǎo", "nǐ", "hǎo");
  }

  lemma WordsNiHao()
    ensures Words("nǐ hǎo") == ["nǐ", "hǎo"]
  {
    var a, b := "nǐ", "hǎo";
    assert NoSpace(a) && NoSpace(b);
    assert a + [' '] + b == "nǐ hǎo";
    TwoWords(a, ' ', b);
  }

  /** Two words separated by one whitespace character split into those words. */
  lemma TwoWords(a: string, c: char, b: string)
    requires |a| > 0 && |b| > 0 && NoSpace(a) && NoSpace(b) && IsSpace(c)
    ensures Words(a + [c] + b) == [a, b]
  {
    WordsAtSpace(a, c, b);
    SingleWord(a);
    SingleWord(b);
  }

  lemma SyllableNi()
    ensures Letters("nǐ") == "n, ǐ" && GetTone("nǐ") == Some(3)
  {
    LettersOf2("nǐ");
  }

  lemma SyllableHao()
    ensures Letters("hǎo") == "h, ǎ, o" && GetTone("hǎo") == Some(3)
  {
    LettersOf3("hǎo");
  }

  lemma BreakdownOfTwo(phrase: string, w1: string, w2: string)
    requires Words(phrase) == [w1, w2]
    ensures Breakdown(phrase) == [Syllable(Letters(w1), GetTone(w1)), Syllable(Letters(w2), GetTone(w2))]
  {
  }

  /** The neutral-tone syllable "de" has no tone mark, so its tone is unresolved. */
  lemma BreakdownDe()
    ensures Breakdown("de") == [Syllable("d, e", None)]
  {
    SingleWord("de");
    NoToneDe();
    LettersOf2("de");
  }

  lemma NoToneDe()
    ensures GetTone("de") == None
  {
    assert |"de"| == 2 && "de"[0] == 'd' && "de"[1] == 'e';
    assert 'd' !in ToneMap && 'e' !in ToneMap;
  }

  lemma LettersOf2(w: string)
    requires |w| == 2
    ensures Letters(w) == [w[0], ',', ' ', w[1]]
  {
    LettersShape(w);
  }

  lemma LettersOf3(w: string)
    requires |w| == 3
    ensures Letters(w) == [w[0], ',', ' ', w[1], ',', ' ', w[2]]
  {
    LettersShape(w);
  }

  /** A non-empty string without whitespace is a single word. */
  lemma SingleWord(w: string)
    requires |w| > 0 && NoSpace(w)
    ensures Words(w) == [w]
  {
    WholeWord(w);
    assert w[..|w|] == w && w[|w|..] == [];
  }

  lemma {:induction false} WholeWord(w: string)
    requires NoSpace(w)
    ensures WordEnd(w) == |w|
    decreases |w|
  {
    if |w| > 0 {
      WholeWord(w[1..]);
    }
  }
}

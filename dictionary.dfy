/** The parsed phrase dictionary, and the order in which both the asset
    generator (generate.py) and the timeline builder (slider.py) visit it:
    each English phrase, then each of its languages in declared order, then
    each variant of that language by zero-based index. */
module Dictionary {
  import opened Wrappers

  /** One translation of a phrase: `{translation, romanization?, note?}`. */
  datatype Variant = Variant(translation: string, romanization: Option<string>, note: Option<string>)

  /** A language code and its variants, in declared order. */
  datatype Language = Language(code: string, variants: seq<Variant>)

  /** An English phrase and its languages, in declared order. */
  datatype Entry = Entry(phrase: string, languages: seq<Language>)

  /** The dictionary: its entries in declared order (the JSON key order). */
  type Dict = seq<Entry>

  /** One slide of the video: the English phrase itself, or the variant with
      the given index of one of its languages. */
  datatype Card =
    | English(phrase: string)
    | Foreign(phrase: string, lang: string, index: nat, variant: Variant)

  /** The cards of one language, by index. */
  function VariantCards(phrase: string, lang: Language): (r: seq<Card>)
    ensures |r| == |lang.variants|
    ensures forall i :: 0 <= i < |r| ==> r[i] == Foreign(phrase, lang.code, i, lang.variants[i])
  {
    seq(|lang.variants|, i requires 0 <= i < |lang.variants| => Foreign(phrase, lang.code, i, lang.variants[i]))
  }

  /** The cards of all languages of a phrase, language after language. */
  function LangCards(phrase: string, langs: seq<Language>): seq<Card>
  {
    if |langs| == 0 then []
    else LangCards(phrase, langs[..|langs| - 1]) + VariantCards(phrase, langs[|langs| - 1])
  }

  /** The cards of one entry: the English card first, then its languages. */
  function EntryCards(e: Entry): seq<Card>
  {
    [English(e.phrase)] + LangCards(e.phrase, e.languages)
  }

  /** The cards of the whole dictionary, entry after entry. */
  function Cards(d: Dict): seq<Card>
  {
    if |d| == 0 then [] else Cards(d[..|d| - 1]) + EntryCards(d[|d| - 1])
  }

  /** Walking one more language appends that language's cards. */
  lemma LangCardsSnoc(phrase: string, langs: seq<Language>, l: nat)
    requires l < |langs|
    ensures LangCards(phrase, langs[..l + 1]) == LangCards(phrase, langs[..l]) + VariantCards(phrase, langs[l])
  {
    assert langs[..l + 1][..l] == langs[..l];
  }

  /** The cards of the first languages of a phrase come first among its cards. */
  lemma {:induction false} LangCardsPrefix(phrase: string, langs: seq<Language>, l: nat)
    requires l <= |langs|
    ensures LangCards(phrase, langs[..l]) <= LangCards(phrase, langs)
    decreases |langs| - l
  {
    if l < |langs| {
      LangCardsPrefix(phrase, langs, l + 1);
      assert langs[..l + 1][..l] == langs[..l];
    } else {
      assert langs[..l] == langs;
    }
  }

  /** The cards of the first entries come first among the dictionary's cards. */
  lemma {:induction false} CardsPrefix(d: Dict, p: nat)
    requires p <= |d|
    ensures Cards(d[..p]) <= Cards(d)
    decreases |d| - p
  {
    if p < |d| {
      CardsPrefix(d, p + 1);
      assert d[..p + 1][..p] == d[..p];
    } else {
      assert d[..p] == d;
    }
  }
}

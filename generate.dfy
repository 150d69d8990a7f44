/** The text side of the asset generator (generate.py): the ffmpeg `drawtext`
    filters that render a card's image, the spelled-out tone breakdown that
    is read aloud for a Mandarin card, and the list of image and audio jobs
    `process_dictionary` schedules, named as slider.py expects to find them.
    The ffmpeg and speech-synthesis calls themselves are represented by the
    values they are given. */
module Generate {
  import opened Wrappers
  import opened Text
  import opened Dictionary
  import opened Assets
  import opened Pinyin
  import opened Timeline
  import opened Sequences

  // ---------------------------------------------------------------------
  // One drawtext filter
  // ---------------------------------------------------------------------

  /** The characters `create_drawtext_string` refuses, in the order it
      checks them. */
  const Illegal: string := ":{'"

  /** The error `create_drawtext_string` raises: the offending character and
      the text it was found in. */
  datatype DrawtextError = IllegalCharacter(c: char, text: string)

  /** Text that `create_drawtext_string` accepts. */
  predicate Legal(text: string)
  {
    ':' !in text && '{' !in text && '\'' !in text
  }

  /** The first of `cs` that occurs in `text`, scanning `cs` left to right. */
  function FirstOf(cs: string, text: string): (r: Option<char>)
    ensures r.None? <==> forall i :: 0 <= i < |cs| ==> cs[i] !in text
    ensures r.Some? ==> exists i :: 0 <= i < |cs| && cs[i] == r.value && r.value in text
                                    && forall j :: 0 <= j < i ==> cs[j] !in text
  {
    if |cs| == 0 then None
    else if cs[0] in text then Some(cs[0])
    else
      var r := FirstOf(cs[1..], text);
      assert forall i :: 1 <= i < |cs| ==> cs[i] == cs[1..][i - 1];
      if r.Some? then
        ghost var i :| 0 <= i < |cs[1..]| && cs[1..][i] == r.value && r.value in text
                       && forall j :: 0 <= j < i ==> cs[1..][j] !in text;
        assert cs[i + 1] == r.value;
        r
      else r
  }

  /** The filter argument for `text` once it has been accepted: six pieces,
      one per line of the f-string, each but the last ending in `:`. */
  function Format(text: string, fontfile: string, fontsize: string, x: string, y: string): string
  {
    ("drawtext=text='" + text + "':")
    + (("fontfile=assets/fonts/" + fontfile + ":")
    + ("fontcolor=white:"
    + (("fontsize=" + fontsize + ":")
    + (("x=" + x + ":")
    + ("y=" + y)))))
  }

  /** Scanning `:{'` in order finds `:` first, then `{`, then `'`. */
  lemma FirstIllegal(text: string)
    ensures FirstOf(Illegal, text) ==
      if ':' in text then Some(':') else if '{' in text then Some('{') else if '\'' in text then Some('\'') else None
  {
    assert Illegal[0] == ':' && Illegal[1..] == "{'";
    assert "{'"[0] == '{' && "{'"[1..] == "'";
    assert "'"[0] == '\'' && "'"[1..] == "";
  }

  /** `create_drawtext_string`: refuses text holding `:`, `{` or `'`,
      naming the first of them in that order; otherwise formats the filter. */
  function CreateDrawtextString(text: string, fontfile: string, fontsize: string, x: string, y: string)
    : (r: Result<string, DrawtextError>)
    ensures r.Success? <==> Legal(text)
    ensures r.Failure? ==> (&& r.error.text == text && r.error.c in text
                            && (r.error.c == ':' || r.error.c == '{' || r.error.c == '\'')
                            && (r.error.c != ':' ==> ':' !in text)
                            && (r.error.c == '\'' ==> '{' !in text))
    ensures r.Success? ==> r.value == Format(text, fontfile, fontsize, x, y)
  {
    FirstIllegal(text);
    match FirstOf(Illegal, text)
    case Some(c) => Failure(IllegalCharacter(c, text))
    case None => Success(Format(text, fontfile, fontsize, x, y))
  }

  lemma JoinCons(p: string, rest: seq<string>, sep: string)
    requires |rest| >= 1
    ensures Join([p] + rest, sep) == p + sep + Join(rest, sep)
  {
    assert ([p] + rest)[1..] == rest;
  }

  /** The options of a filter, in the order they are written. */
  function Options(text: string, fontfile: string, fontsize: string, x: string, y: string): seq<string>
  {
    ["drawtext=text='" + text + "'", "fontfile=assets/fonts/" + fontfile, "fontcolor=white",
     "fontsize=" + fontsize, "x=" + x, "y=" + y]
  }

  lemma FormatIsJoin(text: string, fontfile: string, fontsize: string, x: string, y: string)
    ensures Format(text, fontfile, fontsize, x, y) == Join(Options(text, fontfile, fontsize, x, y), ":")
  {
    var o := Options(text, fontfile, fontsize, x, y);
    assert o == [o[0]] + ([o[1]] + ([o[2]] + ([o[3]] + ([o[4]] + [o[5]]))));
    JoinCons(o[4], [o[5]], ":");
    JoinCons(o[3], [o[4]] + [o[5]], ":");
    JoinCons(o[2], [o[3]] + ([o[4]] + [o[5]]), ":");
    JoinCons(o[1], [o[2]] + ([o[3]] + ([o[4]] + [o[5]])), ":");
    JoinCons(o[0], [o[1]] + ([o[2]] + ([o[3]] + ([o[4]] + [o[5]]))), ":");
    QuoteColon("drawtext=text='" + text);
    assert "fontcolor=white:" == "fontcolor=white" + ":";
  }

  /** The closing quote of the text and the separator after it. */
  lemma QuoteColon(s: string)
    ensures s + "':" == s + "'" + ":"
  {
    assert "':" == "'" + ":";
    AppendAssoc(s, "'", ":");
  }

  /** Why `:` is refused: it separates the filter's options. When no value
      holds one, the filter splits into exactly the six options written, and
      the quoted text is exactly the accepted text. */
  lemma FormatOptions(text: string, fontfile: string, fontsize: string, x: string, y: string)
    requires Legal(text)
    requires ':' !in fontfile && ':' !in fontsize && ':' !in x && ':' !in y
    ensures SplitOn(Format(text, fontfile, fontsize, x, y), ':') == Options(text, fontfile, fontsize, x, y)
  {
    var o := Options(text, fontfile, fontsize, x, y);
    FormatIsJoin(text, fontfile, fontsize, x, y);
    assert ':' !in "drawtext=text='" && ':' !in "'" && ':' !in "fontfile=assets/fonts/";
    assert ':' !in "fontcolor=white" && ':' !in "fontsize=" && ':' !in "x=" && ':' !in "y=";
    assert forall k :: 0 <= k < |o| ==> ':' !in o[k];
    SplitOnJoin(o, ':');
  }

  /** The check order decides which character is reported: `{` before `'`. */
  lemma CheckOrder()
    ensures CreateDrawtextString("{it's}", "f", "60", "10", "10") == Failure(IllegalCharacter('{', "{it's}"))
    ensures CreateDrawtextString("12:30", "f", "60", "10", "10") == Failure(IllegalCharacter(':', "12:30"))
  {
    assert ':' !in "{it's}" && '{' in "{it's}" by {
      assert "{it's}"[0] == '{';
    }
    assert ':' in "12:30" by {
      assert "12:30"[2] == ':';
    }
  }

  // ---------------------------------------------------------------------
  // The filters of one image
  // ---------------------------------------------------------------------

  /** What a card shows: a bare English phrase, or a translation object. */
  datatype CardText = Plain(text: string) | Translated(variant: Variant)

  const CjkFont: string := "NotoSansCJK-Regular.ttc"
  const DevanagariFont: string := "NotoSansDevanagari-Regular.ttf"

  /** The font of an image: Devanagari for Hindi, the CJK font for every
      other language. */
  function FontFor(language: string): (f: string)
    ensures f == DevanagariFont <==> language == "hi"
    ensures f == CjkFont <==> language != "hi"
  {
    if language == "hi" then DevanagariFont else CjkFont
  }

  /** The arguments of one `create_drawtext_string` call. */
  datatype Drawtext = Drawtext(text: string, fontsize: string, x: string, y: string)

  const CentreX: string := "(w-text_w)/2"
  const CentreY: string := "(h-text_h)/2"

  /** The vertical position `offset` pixels below the centre line. */
  function Below(offset: string): string
  {
    CentreY + " + " + offset
  }

  /** The filters of an image, in the order `create_image` adds them. */
  function Layout(obj: CardText, language: string): seq<Drawtext>
  {
    match obj
    case Plain(t) => [Drawtext(t, "100", CentreX, CentreY)]
    case Translated(v) =>
      [Drawtext(v.translation, "100", CentreX, CentreY), Drawtext(language, "60", "10", "10")]
      + Subheadings(v)
  }

  /** The filters below the centre line: the romanization, then the note. */
  function Subheadings(v: Variant): seq<Drawtext>
  {
    (if v.romanization.Some? then [Drawtext(v.romanization.value, "60", CentreX, Below("120"))] else [])
    + (if v.note.Some? then
         [Drawtext(v.note.value, "60", CentreX, Below(if v.romanization.Some? then "200" else "120"))]
       else [])
  }

  /** The positions are option values, so none may hold `:`; the note's two
      offsets differ. */
  lemma PositionsWithoutColon()
    ensures ':' !in CentreX && ':' !in CentreY && ':' !in Below("120") && ':' !in Below("200")
    ensures Below("200") != Below("120")
  {
    assert Below("200")[15] == '2';
  }

  /** The romanization comes first, 120 pixels below the centre; the note
      comes last, 200 pixels below when a romanization precedes it and 120
      otherwise. */
  lemma SubheadingsShape(v: Variant)
    ensures var ss := Subheadings(v);
      && |ss| == (if v.romanization.Some? then 1 else 0) + (if v.note.Some? then 1 else 0)
      && (v.romanization.Some? ==> ss[0] == Drawtext(v.romanization.value, "60", CentreX, Below("120")))
      && (v.note.Some? ==> (&& ss[|ss| - 1].text == v.note.value && ss[|ss| - 1].fontsize == "60"
                            && (ss[|ss| - 1].y == Below("200") <==> v.romanization.Some?)))
      && forall i :: 0 <= i < |ss| ==> ':' !in ss[i].fontsize && ':' !in ss[i].x && ':' !in ss[i].y
  {
    PositionsWithoutColon();
  }

  /** A bare English phrase gets one large centred filter and no header; a
      translation gets the large translation, the language header in the
      corner, then the romanization 120 pixels below the centre, then the
      note, 200 pixels below when a romanization precedes it and 120
      otherwise. No position holds the option separator `:`. */
  lemma LayoutShape(obj: CardText, language: string)
    ensures var ds := Layout(obj, language);
      && (obj.Plain? ==> ds == [Drawtext(obj.text, "100", CentreX, CentreY)])
      && (obj.Translated? ==>
            var v := obj.variant;
            && |ds| == 2 + (if v.romanization.Some? then 1 else 0) + (if v.note.Some? then 1 else 0)
            && ds[0] == Drawtext(v.translation, "100", CentreX, CentreY)
            && ds[1] == Drawtext(language, "60", "10", "10")
            && (v.romanization.Some? ==> ds[2] == Drawtext(v.romanization.value, "60", CentreX, Below("120")))
            && (v.note.Some? ==> (&& ds[|ds| - 1].text == v.note.value && ds[|ds| - 1].fontsize == "60"
                                  && (ds[|ds| - 1].y == Below("200") <==> v.romanization.Some?))))
      && forall i :: 0 <= i < |ds| ==> ':' !in ds[i].fontsize && ':' !in ds[i].x && ':' !in ds[i].y
  {
    PositionsWithoutColon();
    if obj.Translated? {
      var v := obj.variant;
      var ss := Subheadings(v);
      SubheadingsShape(v);
      assert forall i :: 2 <= i < 2 + |ss| ==> Layout(obj, language)[i] == ss[i - 2];
    }
  }

  /** Renders filters in order, stopping at the first refused text. */
  function RenderAll(ds: seq<Drawtext>, font: string): Result<seq<string>, DrawtextError>
  {
    if |ds| == 0 then Success([])
    else
      var d := ds[|ds| - 1];
      match RenderAll(ds[..|ds| - 1], font)
      case Failure(e) => Failure(e)
      case Success(prev) =>
        match CreateDrawtextString(d.text, font, d.fontsize, d.x, d.y)
        case Failure(e) => Failure(e)
        case Success(s) => Success(prev + [s])
  }

  /** The filter graph of an image: the rendered filters joined by `", "`. */
  function Filtergraph(obj: CardText, language: string): Result<string, DrawtextError>
  {
    match RenderAll(Layout(obj, language), FontFor(language))
    case Failure(e) => Failure(e)
    case Success(fs) => Success(Join(fs, ", "))
  }

  /** Rendering succeeds exactly when every text is accepted, and then gives
      each filter formatted in order; otherwise it reports the first refused
      text. */
  lemma {:induction false} RenderAllMeaning(ds: seq<Drawtext>, font: string)
    ensures RenderAll(ds, font).Success? <==> forall i :: 0 <= i < |ds| ==> Legal(ds[i].text)
    ensures RenderAll(ds, font).Success? ==> var fs := RenderAll(ds, font).value;
      |fs| == |ds| && forall i :: 0 <= i < |ds| ==>
        fs[i] == Format(ds[i].text, font, ds[i].fontsize, ds[i].x, ds[i].y)
    ensures RenderAll(ds, font).Failure? ==>
      exists i :: (&& 0 <= i < |ds| && !Legal(ds[i].text)
                   && (forall j :: 0 <= j < i ==> Legal(ds[j].text))
                   && RenderAll(ds, font).error
                      == CreateDrawtextString(ds[i].text, font, ds[i].fontsize, ds[i].x, ds[i].y).error)
  {
    RenderAllLegal(ds, font);
    if RenderAll(ds, font).Success? {
      RenderAllValues(ds, font);
    } else {
      RenderAllRefusal(ds, font);
    }
  }

  lemma {:induction false} RenderAllLegal(ds: seq<Drawtext>, font: string)
    ensures RenderAll(ds, font).Success? <==> forall i :: 0 <= i < |ds| ==> Legal(ds[i].text)
    decreases |ds|
  {
    if |ds| > 0 {
      var n := |ds| - 1;
      var init := ds[..n];
      RenderAllLegal(init, font);
      assert forall i :: 0 <= i < n ==> init[i] == ds[i];
    }
  }

  lemma {:induction false} RenderAllValues(ds: seq<Drawtext>, font: string)
    requires RenderAll(ds, font).Success?
    ensures var fs := RenderAll(ds, font).value;
      |fs| == |ds| && forall i :: 0 <= i < |ds| ==>
        fs[i] == Format(ds[i].text, font, ds[i].fontsize, ds[i].x, ds[i].y)
    decreases |ds|
  {
    if |ds| > 0 {
      var n := |ds| - 1;
      var init, d := ds[..n], ds[n];
      RenderAllValues(init, font);
      var prev := RenderAll(init, font).value;
      var fs := RenderAll(ds, font).value;
      assert fs == prev + [Format(d.text, font, d.fontsize, d.x, d.y)];
      assert forall i :: 0 <= i < n ==> init[i] == ds[i] && fs[i] == prev[i];
    }
  }

  lemma {:induction false} RenderAllRefusal(ds: seq<Drawtext>, font: string)
    requires RenderAll(ds, font).Failure?
    ensures exists i :: (&& 0 <= i < |ds| && !Legal(ds[i].text)
                         && (forall j :: 0 <= j < i ==> Legal(ds[j].text))
                         && RenderAll(ds, font).error
                            == CreateDrawtextString(ds[i].text, font, ds[i].fontsize, ds[i].x, ds[i].y).error)
    decreases |ds|
  {
    var n := |ds| - 1;
    var init, d := ds[..n], ds[n];
    if RenderAll(init, font).Failure? {
      RenderAllRefusal(init, font);
      var i :| (&& 0 <= i < |init| && !Legal(init[i].text)
                && (forall j :: 0 <= j < i ==> Legal(init[j].text))
                && RenderAll(init, font).error
                   == CreateDrawtextString(init[i].text, font, init[i].fontsize, init[i].x, init[i].y).error);
      assert forall j :: 0 <= j <= i ==> init[j] == ds[j];
    } else {
      RenderAllLegal(init, font);
      assert forall j :: 0 <= j < n ==> init[j] == ds[j];
      assert !Legal(ds[n].text);
    }
  }

  lemma RenderStep(ds: seq<Drawtext>, d: Drawtext, font: string, acc: seq<string>)
    requires RenderAll(ds, font) == Success(acc)
    ensures RenderAll(ds + [d], font) ==
      match CreateDrawtextString(d.text, font, d.fontsize, d.x, d.y)
      case Failure(e) => Failure(e)
      case Success(s) => Success(acc + [s])
  {
    assert (ds + [d])[..|ds|] == ds;
  }

  /** Once a text is refused, later filters change nothing. */
  lemma {:induction false} RenderStopped(ds: seq<Drawtext>, rest: seq<Drawtext>, font: string)
    requires RenderAll(ds, font).Failure?
    ensures RenderAll(ds + rest, font) == RenderAll(ds, font)
    decreases |rest|
  {
    if |rest| > 0 {
      var init := rest[..|rest| - 1];
      RenderStopped(ds, init, font);
      assert (ds + rest)[..|ds + rest| - 1] == ds + init;
    } else {
      assert ds + rest == ds;
    }
  }

  /** The filter graph of an English card: a single filter, no header. */
  lemma PlainFiltergraph(phrase: string)
    requires Legal(phrase)
    ensures Filtergraph(Plain(phrase), "en") == Success(Format(phrase, CjkFont, "100", CentreX, CentreY))
  {
    RenderStep([], Drawtext(phrase, "100", CentreX, CentreY), CjkFont, []);
  }

  /** Rendering a prefix that already fails decides the whole rendering. */
  lemma RenderPrefixStopped(ds: seq<Drawtext>, all: seq<Drawtext>, font: string)
    requires ds <= all && RenderAll(ds, font).Failure?
    ensures RenderAll(all, font) == RenderAll(ds, font)
  {
    RenderStopped(ds, all[|ds|..], font);
    assert ds + all[|ds|..] == all;
  }

  /** `text.append(create_drawtext_string(...))`, where the filters added so
      far are the first ones of `all` and `d` is the next: either the new
      list renders one more of them, or the refusal is the outcome of
      rendering all of them. */
  method AppendFilter(text: seq<string>, ghost planned: seq<Drawtext>, ghost all: seq<Drawtext>,
                      d: Drawtext, font: string)
    returns (r: Result<seq<string>, DrawtextError>)
    requires RenderAll(planned, font) == Success(text)
    requires |planned| < |all| && planned == all[..|planned|] && all[|planned|] == d
    ensures r.Success? ==> RenderAll(planned + [d], font) == Success(r.value) && planned + [d] == all[..|planned| + 1]
    ensures r.Failure? ==> RenderAll(all, font) == Failure(r.error)
  {
    var s := CreateDrawtextString(d.text, font, d.fontsize, d.x, d.y);
    RenderStep(planned, d, font, text);
    assert all[..|planned| + 1] == planned + [d];
    if s.Failure? {
      RenderPrefixStopped(planned + [d], all, font);
      return Failure(s.error);
    }
    r := Success(text + [s.value]);
  }

  /** The subheading part of `create_image`, after the translation and the
      header (`planned`) have been rendered: the note's offset is chosen by
      whether a romanization was added before it. */
  method AddSubheadings(v: Variant, text: seq<string>, ghost planned: seq<Drawtext>,
                        ghost all: seq<Drawtext>, font: string)
    returns (r: Result<seq<string>, DrawtextError>)
    requires RenderAll(planned, font) == Success(text)
    requires all == planned + Subheadings(v)
    ensures r == RenderAll(all, font)
  {
    r := Success(text);
    ghost var done := planned;
    var previousSubheading := false;
    if v.romanization.Some? {
      var d := Drawtext(v.romanization.value, "60", CentreX, Below("120"));
      r := AppendFilter(text, done, all, d, font);
      if r.Failure? {
        return;
      }
      done := done + [d];
      previousSubheading := true;
    }
    if v.note.Some? {
      var d := Drawtext(v.note.value, "60", CentreX, Below(if previousSubheading then "200" else "120"));
      r := AppendFilter(r.value, done, all, d, font);
      if r.Failure? {
        return;
      }
      done := done + [d];
    }
    assert done == all;
  }

  /** The filter assembly of `create_image`: the font by language, then the
      filters one by one, the note's offset chosen by whether a romanization
      was added; the first refused text aborts the image. */
  method CreateImageFilter(obj: CardText, language: string) returns (r: Result<string, DrawtextError>)
    ensures r == Filtergraph(obj, language)
  {
    ghost var all := Layout(obj, language);
    var fontfile := CjkFont;
    if language == "hi" {
      fontfile := DevanagariFont;
    }
    var text: seq<string> := [];
    ghost var planned: seq<Drawtext> := [];
    var added;
    if obj.Plain? {
      var d := Drawtext(obj.text, "100", CentreX, CentreY);
      added := AppendFilter(text, planned, all, d, fontfile);
      if added.Failure? {
        return Failure(added.error);
      }
      text, planned := added.value, planned + [d];
    } else {
      var v := obj.variant;
      // the translation, then the language header
      var d := Drawtext(v.translation, "100", CentreX, CentreY);
      added := AppendFilter(text, planned, all, d, fontfile);
      if added.Failure? {
        return Failure(added.error);
      }
      text, planned := added.value, planned + [d];
      d := Drawtext(language, "60", "10", "10");
      added := AppendFilter(text, planned, all, d, fontfile);
      if added.Failure? {
        return Failure(added.error);
      }
      text, planned := added.value, planned + [d];
      added := AddSubheadings(v, text, planned, all, fontfile);
      if added.Failure? {
        return Failure(added.error);
      }
      text, planned := added.value, all;
    }
    assert planned == all;
    r := Success(Join(text, ", "));
  }

  /** The filter graph of an image is built exactly when none of its texts
      holds a refused character, and is then the formatted filters of the
      layout joined by `", "` in order. */
  lemma FiltergraphMeaning(obj: CardText, language: string)
    ensures var ds := Layout(obj, language);
      && (Filtergraph(obj, language).Success? <==> forall i :: 0 <= i < |ds| ==> Legal(ds[i].text))
      && (Filtergraph(obj, language).Success? ==>
            Filtergraph(obj, language).value
            == Join(seq(|ds|, i requires 0 <= i < |ds| =>
                      Format(ds[i].text, FontFor(language), ds[i].fontsize, ds[i].x, ds[i].y)), ", "))
  {
    var ds := Layout(obj, language);
    RenderAllMeaning(ds, FontFor(language));
    if RenderAll(ds, FontFor(language)).Success? {
      var fs := RenderAll(ds, FontFor(language)).value;
      assert fs == seq(|ds|, i requires 0 <= i < |ds| =>
                     Format(ds[i].text, FontFor(language), ds[i].fontsize, ds[i].x, ds[i].y));
    }
  }

  /** A translation with both subheadings: translation, header, romanization
      at +120, note at +200, joined by `", "`. */
  lemma FullFiltergraph(v: Variant, language: string)
    requires v.romanization.Some? && v.note.Some?
    requires Legal(v.translation) && Legal(language) && Legal(v.romanization.value) && Legal(v.note.value)
    ensures var f := FontFor(language);
      Filtergraph(Translated(v), language) == Success(
        Format(v.translation, f, "100", CentreX, CentreY) + ", "
        + Format(language, f, "60", "10", "10") + ", "
        + Format(v.romanization.value, f, "60", CentreX, Below("120")) + ", "
        + Format(v.note.value, f, "60", CentreX, Below("200")))
  {
    var d0 := Drawtext(v.translation, "100", CentreX, CentreY);
    var d1 := Drawtext(language, "60", "10", "10");
    var d2 := Drawtext(v.romanization.value, "60", CentreX, Below("120"));
    var d3 := Drawtext(v.note.value, "60", CentreX, Below("200"));
    assert Layout(Translated(v), language) == [d0, d1, d2, d3];
    RenderFour(d0, d1, d2, d3, FontFor(language));
  }

  lemma RenderFour(d0: Drawtext, d1: Drawtext, d2: Drawtext, d3: Drawtext, f: string)
    requires Legal(d0.text) && Legal(d1.text) && Legal(d2.text) && Legal(d3.text)
    ensures RenderAll([d0, d1, d2, d3], f) == Success([
      Format(d0.text, f, d0.fontsize, d0.x, d0.y), Format(d1.text, f, d1.fontsize, d1.x, d1.y),
      Format(d2.text, f, d2.fontsize, d2.x, d2.y), Format(d3.text, f, d3.fontsize, d3.x, d3.y)])
    ensures Join([Format(d0.text, f, d0.fontsize, d0.x, d0.y), Format(d1.text, f, d1.fontsize, d1.x, d1.y),
                  Format(d2.text, f, d2.fontsize, d2.x, d2.y), Format(d3.text, f, d3.fontsize, d3.x, d3.y)], ", ")
      == Format(d0.text, f, d0.fontsize, d0.x, d0.y) + ", " + Format(d1.text, f, d1.fontsize, d1.x, d1.y) + ", "
         + Format(d2.text, f, d2.fontsize, d2.x, d2.y) + ", " + Format(d3.text, f, d3.fontsize, d3.x, d3.y)
  {
    var s0 := Format(d0.text, f, d0.fontsize, d0.x, d0.y);
    var s1 := Format(d1.text, f, d1.fontsize, d1.x, d1.y);
    var s2 := Format(d2.text, f, d2.fontsize, d2.x, d2.y);
    var s3 := Format(d3.text, f, d3.fontsize, d3.x, d3.y);
    RenderTwo(d0, d1, f);
    RenderStep([d0, d1], d2, f, [s0, s1]);
    assert [d0, d1] + [d2] == [d0, d1, d2] && [s0, s1] + [s2] == [s0, s1, s2];
    RenderStep([d0, d1, d2], d3, f, [s0, s1, s2]);
    assert [d0, d1, d2] + [d3] == [d0, d1, d2, d3] && [s0, s1, s2] + [s3] == [s0, s1, s2, s3];
    JoinFour(s0, s1, s2, s3, ", ");
  }

  lemma RenderTwo(d0: Drawtext, d1: Drawtext, f: string)
    requires Legal(d0.text) && Legal(d1.text)
    ensures RenderAll([d0, d1], f) ==
      Success([Format(d0.text, f, d0.fontsize, d0.x, d0.y), Format(d1.text, f, d1.fontsize, d1.x, d1.y)])
  {
    var s0 := Format(d0.text, f, d0.fontsize, d0.x, d0.y);
    RenderStep([], d0, f, []);
    assert [] + [d0] == [d0] && [] + [s0] == [s0];
    RenderStep([d0], d1, f, [s0]);
    assert [d0] + [d1] == [d0, d1];
    assert [s0] + [Format(d1.text, f, d1.fontsize, d1.x, d1.y)] == [s0, Format(d1.text, f, d1.fontsize, d1.x, d1.y)];
  }

  lemma JoinFour(s0: string, s1: string, s2: string, s3: string, sep: string)
    ensures Join([s0, s1, s2, s3], sep) == s0 + sep + s1 + sep + s2 + sep + s3
  {
    JoinCons(s2, [s3], sep);
    JoinCons(s1, [s2, s3], sep);
    JoinCons(s0, [s1, s2, s3], sep);
    assert [s2] + [s3] == [s2, s3] && [s1] + [s2, s3] == [s1, s2, s3] && [s0] + [s1, s2, s3] == [s0, s1, s2, s3];
  }

  // ---------------------------------------------------------------------
  // The spoken tone breakdown
  // ---------------------------------------------------------------------

  /** How a tone is rendered in an f-string: its number, or `None`. */
  function ToneText(tone: Option<nat>): string
  {
    match tone
    case None => "None"
    case Some(n) => Decimal(n)
  }

  /** What is said for one syllable. */
  function Sentence(s: Syllable): string
  {
    s.letters + ", tone " + ToneText(s.tone) + "."
  }

  /** What is said for a breakdown: the sentences of its syllables in order,
      with nothing between them. */
  function Speech(breakdown: seq<Syllable>): string
  {
    if |breakdown| == 0 then ""
    else Speech(breakdown[..|breakdown| - 1]) + Sentence(breakdown[|breakdown| - 1])
  }

  /** The loop building `to_tts`. */
  method BreakdownSpeech(breakdown: seq<Syllable>) returns (toTts: string)
    ensures toTts == Speech(breakdown)
  {
    toTts := "";
    for k := 0 to |breakdown|
      invariant toTts == Speech(breakdown[..k])
    {
      var phrase := breakdown[k];
      TakeTake(breakdown, k);
      var sentence := phrase.letters + ", tone " + ToneText(phrase.tone) + ".";
      assert sentence == Sentence(phrase);
      toTts := toTts + sentence;
    }
    assert breakdown[..|breakdown|] == breakdown;
  }

  /** The speech of a breakdown split in two is the speech of the first part
      followed by that of the second. */
  lemma {:induction false} SpeechAppend(a: seq<Syllable>, b: seq<Syllable>)
    ensures Speech(a + b) == Speech(a) + Speech(b)
    decreases |b|
  {
    if |b| == 0 {
      assert a + b == a;
    } else {
      var init, last := b[..|b| - 1], b[|b| - 1];
      SpeechAppend(a, init);
      SnocSplit(a, b);
      assert Speech(a + b) == Speech(a + init) + Sentence(last);
      assert Speech(b) == Speech(init) + Sentence(last);
      AppendAssoc(Speech(a), Speech(init), Sentence(last));
    }
  }

  /** The tone word of every sentence spoken for a romanization is one of
      `1` to `4` or `None`. */
  lemma ToneWords(phrase: string)
    ensures forall i :: 0 <= i < |Breakdown(phrase)| ==>
      ToneText(Breakdown(phrase)[i].tone) in {"1", "2", "3", "4", "None"}
  {
    forall i | 0 <= i < |Breakdown(phrase)|
      ensures ToneText(Breakdown(phrase)[i].tone) in {"1", "2", "3", "4", "None"}
    {
      ToneWord(Breakdown(phrase)[i].tone);
    }
  }

  /** A tone of 1 to 4, or none, is spoken as its digit or as `None`. */
  lemma ToneWord(tone: Option<nat>)
    requires tone.Some? ==> 1 <= tone.value <= 4
    ensures ToneText(tone) in {"1", "2", "3", "4", "None"}
  {
    if tone.Some? {
      var n := tone.value;
      assert ToneText(tone) == [DigitChar(n)];
      if n == 1 {
        assert [DigitChar(n)] == "1";
      } else if n == 2 {
        assert [DigitChar(n)] == "2";
      } else if n == 3 {
        assert [DigitChar(n)] == "3";
      } else {
        assert [DigitChar(n)] == "4";
      }
    }
  }

  /** "nǐ hǎo" is read as "n, ǐ, tone 3.h, ǎ, o, tone 3.". */
  lemma SpeechNiHao()
    ensures Speech(Breakdown("nǐ hǎo")) == "n, ǐ, tone 3.h, ǎ, o, tone 3."
  {
    BreakdownNiHao();
    SpeechOfTwo(Syllable("n, ǐ", Some(3)), Syllable("h, ǎ, o", Some(3)));
    ThirdToneSentences();
  }

  lemma SpeechOfTwo(s0: Syllable, s1: Syllable)
    ensures Speech([s0, s1]) == Sentence(s0) + Sentence(s1)
  {
    assert [s0, s1][..1] == [s0] && [s0][..0] == [];
    assert Speech([s0]) == Sentence(s0) by {
      assert "" + Sentence(s0) == Sentence(s0);
    }
  }

  lemma ThirdToneSentences()
    ensures Sentence(Syllable("n, ǐ", Some(3))) + Sentence(Syllable("h, ǎ, o", Some(3)))
      == "n, ǐ, tone 3.h, ǎ, o, tone 3."
  {
    ThirdToneSentence("n, ǐ");
    ThirdToneSentence("h, ǎ, o");
  }

  lemma ThirdToneSentence(letters: string)
    ensures Sentence(Syllable(letters, Some(3))) == letters + ", tone 3."
  {
    assert ToneText(Some(3)) == "3" by {
      assert Decimal(3) == [DigitChar(3)];
    }
    AppendAssoc(letters, ", tone ", "3");
    AppendAssoc(letters, ", tone 3", ".");
  }

  /** A romanization with no syllables is read as nothing. */
  lemma SilentBreakdown(phrase: string)
    requires forall i :: 0 <= i < |phrase| ==> IsSpace(phrase[i])
    ensures Speech(Breakdown(phrase)) == ""
  {
    NoWords(phrase);
  }

  // ---------------------------------------------------------------------
  // Speech synthesis requests
  // ---------------------------------------------------------------------

  /** A request to synthesize `text` in language `lang` into `path`. */
  datatype Utterance = Utterance(text: string, lang: string, path: string)

  /** A Mandarin card whose object has no romanization: the lookup fails
      after the main clip has been saved. */
  datatype TtsError = MissingRomanization

  /** What a card says aloud: the phrase, or the translation. */
  function Spoken(obj: CardText): string
  {
    match obj
    case Plain(t) => t
    case Translated(v) => v.translation
  }

  /** `generate_tts`: saves the spoken text in the card's language to
      `outputFile`; for Mandarin, also saves the spelled-out breakdown of the
      romanization, in English, beside it as `-breakdown.mp3`. */
  method GenerateTts(obj: CardText, language: string, outputFile: string)
    returns (saved: seq<Utterance>, err: Option<TtsError>)
    ensures |saved| >= 1 && saved[0] == Utterance(Spoken(obj), language, outputFile)
    ensures language != Mandarin ==> saved == [saved[0]] && err.None?
    ensures language == Mandarin && obj.Translated? && obj.variant.romanization.Some? ==>
      && err.None? && |saved| == 2
      && saved[1] == Utterance(Speech(Breakdown(obj.variant.romanization.value)), "en", BreakdownPath(outputFile))
    ensures language == Mandarin && !(obj.Translated? && obj.variant.romanization.Some?) ==>
      saved == [saved[0]] && err == Some(MissingRomanization)
  {
    match obj {
      case Translated(v) => saved := [Utterance(v.translation, language, outputFile)];
      case Plain(t) => saved := [Utterance(t, language, outputFile)];
    }
    err := None;
    if language == Mandarin {
      if !(obj.Translated? && obj.variant.romanization.Some?) {
        return saved, Some(MissingRomanization);
      }
      var breakdown := ProcessPinyinPhrase(obj.variant.romanization.value);
      assert breakdown == Breakdown(obj.variant.romanization.value);
      var toTts := BreakdownSpeech(breakdown);
      saved := saved + [Utterance(toTts, "en", BreakdownPath(outputFile))];
    }
  }

  // ---------------------------------------------------------------------
  // The jobs of a dictionary
  // ---------------------------------------------------------------------

  /** An image or audio file to produce, for a card's text and language. */
  datatype Job =
    | MakeImage(obj: CardText, language: string, path: string)
    | MakeAudio(obj: CardText, language: string, path: string)

  /** What a card shows and says. */
  function CardObject(c: Card): CardText
  {
    match c
    case English(p) => Plain(p)
    case Foreign(_, _, _, v) => Translated(v)
  }

  /** What one card needs: its text and language, and the image and audio
      files that hold them. */
  datatype Asset = Asset(obj: CardText, language: string, image: string, audio: string)

  function AssetOf(name: string, c: Card): Asset
  {
    Asset(CardObject(c), CardLanguage(c), ImagePath(name, c), AudioPath(name, c))
  }

  function AssetsOf(name: string, cards: seq<Card>): (r: seq<Asset>)
    ensures |r| == |cards| && forall i :: 0 <= i < |r| ==> r[i] == AssetOf(name, cards[i])
  {
    seq(|cards|, i requires 0 <= i < |cards| => AssetOf(name, cards[i]))
  }

  /** The jobs of one card: its image, then its audio, each unless the file
      exists already and `regenerate` is off. */
  function CardJobs(a: Asset, regenerate: bool, existing: set<string>): seq<Job>
  {
    (if regenerate || a.image !in existing then [MakeImage(a.obj, a.language, a.image)] else [])
    + (if regenerate || a.audio !in existing then [MakeAudio(a.obj, a.language, a.audio)] else [])
  }

  /** The jobs of a sequence of cards, card after card. */
  function JobsOf(assets: seq<Asset>, regenerate: bool, existing: set<string>): seq<Job>
  {
    if |assets| == 0 then []
    else JobsOf(assets[..|assets| - 1], regenerate, existing) + CardJobs(assets[|assets| - 1], regenerate, existing)
  }

  lemma {:induction false} JobsAppend(a: seq<Asset>, b: seq<Asset>, regenerate: bool, existing: set<string>)
    ensures JobsOf(a + b, regenerate, existing) == JobsOf(a, regenerate, existing) + JobsOf(b, regenerate, existing)
    decreases |b|
  {
    if |b| == 0 {
      assert a + b == a;
    } else {
      var init, last := b[..|b| - 1], b[|b| - 1];
      JobsAppend(a, init, regenerate, existing);
      SnocSplit(a, b);
      var ja, ji, jl := JobsOf(a, regenerate, existing), JobsOf(init, regenerate, existing),
        CardJobs(last, regenerate, existing);
      assert JobsOf(a + b, regenerate, existing) == JobsOf(a + init, regenerate, existing) + jl;
      assert JobsOf(b, regenerate, existing) == ji + jl;
      AppendAssoc(ja, ji, jl);
    }
  }

  lemma JobsSingle(a: Asset, regenerate: bool, existing: set<string>)
    ensures JobsOf([a], regenerate, existing) == CardJobs(a, regenerate, existing)
  {
    assert [a][..0] == [];
  }

  lemma AssetsAppend(name: string, a: seq<Card>, b: seq<Card>)
    ensures AssetsOf(name, a + b) == AssetsOf(name, a) + AssetsOf(name, b)
  {
  }

  /** The file names the generator writes for variant `i` of a language,
      spelled as it spells them, are those of the shared scheme. */
  lemma VariantFiles(name: string, phrase: string, code: string, i: nat, v: Variant)
    ensures AssetOf(name, Foreign(phrase, code, i, v)) == Asset(Translated(v), code,
      "out/" + name + "/images/" + phrase + "_" + code + Decimal(i) + ".png",
      "out/" + name + "/audios/" + phrase + "_" + code + Decimal(i) + ".mp3")
  {
    Spelling("out/" + name + "/images/", phrase, code, Decimal(i), ".png");
    Spelling("out/" + name + "/audios/", phrase, code, Decimal(i), Mp3);
  }

  lemma Spelling(dir: string, phrase: string, code: string, index: string, ext: string)
    ensures dir + (phrase + "_" + code + index) + ext == dir + phrase + "_" + code + index + ext
  {
  }

  lemma EnglishFiles(name: string, phrase: string)
    ensures AssetOf(name, English(phrase)) == Asset(Plain(phrase), "en",
      "out/" + name + "/images/" + phrase + ".png", "out/" + name + "/audios/" + phrase + ".mp3")
  {
  }

  /** The jobs of one language's variants (the loop over `i`), appended to
      `jobs`. */
  method VariantJobs(name: string, phrase: string, language: Language, regenerate: bool, existing: set<string>,
                     jobs: seq<Job>)
    returns (out: seq<Job>)
    ensures out == jobs + JobsOf(AssetsOf(name, VariantCards(phrase, language)), regenerate, existing)
  {
    ghost var assets := AssetsOf(name, VariantCards(phrase, language));
    out := jobs;
    assert assets[..0] == [];
    for i := 0 to |language.variants|
      invariant out == jobs + JobsOf(assets[..i], regenerate, existing)
    {
      ghost var before := JobsOf(assets[..i], regenerate, existing);
      out := VariantJob(name, phrase, language.code, i, language.variants[i], regenerate, existing, out);
      assert assets[i] == AssetOf(name, Foreign(phrase, language.code, i, language.variants[i]));
      JobsSnoc(assets, i, regenerate, existing);
      AppendAssoc(jobs, before, CardJobs(assets[i], regenerate, existing));
    }
    TakeAll(assets);
  }

  /** The body of the loop over `i`: the image and audio jobs of variant `i`,
      named as the generator spells them, appended to `jobs`. */
  method VariantJob(name: string, phrase: string, code: string, i: nat, translation: Variant,
                    regenerate: bool, existing: set<string>, jobs: seq<Job>)
    returns (out: seq<Job>)
    ensures out == jobs + CardJobs(AssetOf(name, Foreign(phrase, code, i, translation)), regenerate, existing)
  {
    VariantFiles(name, phrase, code, i, translation);
    out := jobs;
    var imagePath := "out/" + name + "/images/" + phrase + "_" + code + Decimal(i) + ".png";
    if regenerate || imagePath !in existing {
      out := out + [MakeImage(Translated(translation), code, imagePath)];
    }
    var audioPath := "out/" + name + "/audios/" + phrase + "_" + code + Decimal(i) + ".mp3";
    if regenerate || audioPath !in existing {
      out := out + [MakeAudio(Translated(translation), code, audioPath)];
    }
  }

  /** Listing one more card appends that card's jobs. */
  lemma JobsSnoc(assets: seq<Asset>, i: nat, regenerate: bool, existing: set<string>)
    requires i < |assets|
    ensures JobsOf(assets[..i + 1], regenerate, existing)
      == JobsOf(assets[..i], regenerate, existing) + CardJobs(assets[i], regenerate, existing)
  {
    assert assets[..i + 1][..i] == assets[..i];
  }

  /** `process_dictionary`: for each English phrase in order, its image and
      audio jobs, then those of each variant of each of its languages, by
      zero-based index; a file that exists already gets no job unless
      `regenerate` is set. `name` is the dictionary's file name without
      directory and extension; `existing` is the set of files present when
      the jobs are listed (they only run once all are listed). */
  method ProcessDictionary(name: string, d: Dict, regenerate: bool, existing: set<string>)
    returns (jobs: seq<Job>)
    ensures jobs == JobsOf(AssetsOf(name, Cards(d)), regenerate, existing)
  {
    jobs := [];
    for p := 0 to |d|
      invariant jobs == JobsOf(AssetsOf(name, Cards(d[..p])), regenerate, existing)
    {
      jobs := EntryJobs(name, d[p], regenerate, existing, jobs);
      AssetsAppend(name, Cards(d[..p]), EntryCards(d[p]));
      JobsAppend(AssetsOf(name, Cards(d[..p])), AssetsOf(name, EntryCards(d[p])), regenerate, existing);
      TakeTake(d, p);
    }
    TakeAll(d);
  }

  /** The jobs of one English phrase and all its variants (the body of the
      loop over phrases), appended to `jobs`. */
  method EntryJobs(name: string, entry: Entry, regenerate: bool, existing: set<string>, jobs: seq<Job>)
    returns (out: seq<Job>)
    ensures out == jobs + JobsOf(AssetsOf(name, EntryCards(entry)), regenerate, existing)
  {
    var englishPhrase := entry.phrase;
    ghost var english := AssetOf(name, English(englishPhrase));
    EnglishFiles(name, englishPhrase);
    out := jobs;
    var imagePath := "out/" + name + "/images/" + englishPhrase + ".png";
    if regenerate || imagePath !in existing {
      out := out + [MakeImage(Plain(englishPhrase), "en", imagePath)];
    }
    var audioPath := "out/" + name + "/audios/" + englishPhrase + ".mp3";
    if regenerate || audioPath !in existing {
      out := out + [MakeAudio(Plain(englishPhrase), "en", audioPath)];
    }
    assert out == jobs + CardJobs(english, regenerate, existing);
    ghost var mid := out;
    out := LanguagesJobs(name, englishPhrase, entry.languages, regenerate, existing, out);
    ghost var rest := AssetsOf(name, LangCards(englishPhrase, entry.languages));
    AssetsAppend(name, [English(englishPhrase)], LangCards(englishPhrase, entry.languages));
    assert AssetsOf(name, [English(englishPhrase)]) == [english];
    JobsAppend([english], rest, regenerate, existing);
    JobsSingle(english, regenerate, existing);
    AppendAssoc(jobs, CardJobs(english, regenerate, existing), JobsOf(rest, regenerate, existing));
  }

  /** The jobs of the languages of a phrase (the loop over languages), in
      declared order, appended to `jobs`. */
  method LanguagesJobs(name: string, phrase: string, languages: seq<Language>, regenerate: bool,
                       existing: set<string>, jobs: seq<Job>)
    returns (out: seq<Job>)
    ensures out == jobs + JobsOf(AssetsOf(name, LangCards(phrase, languages)), regenerate, existing)
  {
    out := jobs;
    assert LangCards(phrase, languages[..0]) == [] by {
      assert |languages[..0]| == 0;
    }
    assert jobs + JobsOf(AssetsOf(name, []), regenerate, existing) == jobs;
    for l := 0 to |languages|
      invariant out == jobs + JobsOf(AssetsOf(name, LangCards(phrase, languages[..l])), regenerate, existing)
    {
      ghost var done := LangCards(phrase, languages[..l]);
      ghost var cards := VariantCards(phrase, languages[l]);
      out := VariantJobs(name, phrase, languages[l], regenerate, existing, out);
      AssetsAppend(name, done, cards);
      JobsAppend(AssetsOf(name, done), AssetsOf(name, cards), regenerate, existing);
      AppendAssoc(jobs, JobsOf(AssetsOf(name, done), regenerate, existing),
                  JobsOf(AssetsOf(name, cards), regenerate, existing));
      LangCardsSnoc(phrase, languages, l);
    }
    TakeAll(languages);
  }

  /** With `regenerate`, every card gets both jobs, image first, in the
      order of the cards. */
  lemma {:induction false} RegenerateEverything(assets: seq<Asset>, existing: set<string>)
    ensures var jobs := JobsOf(assets, true, existing);
      && |jobs| == 2 * |assets|
      && forall i :: 0 <= i < |assets| ==>
           && jobs[2 * i] == MakeImage(assets[i].obj, assets[i].language, assets[i].image)
           && jobs[2 * i + 1] == MakeAudio(assets[i].obj, assets[i].language, assets[i].audio)
    decreases |assets|
  {
    if |assets| > 0 {
      var init := assets[..|assets| - 1];
      RegenerateEverything(init, existing);
      assert forall i :: 0 <= i < |init| ==> init[i] == assets[i];
    }
  }

  /** Without `regenerate`, no job overwrites an existing file, and every
      image and audio file that does not exist gets a job. */
  lemma {:induction false} CacheSkipsExisting(assets: seq<Asset>, existing: set<string>)
    ensures forall k :: 0 <= k < |JobsOf(assets, false, existing)| ==>
      JobsOf(assets, false, existing)[k].path !in existing
    ensures forall i :: 0 <= i < |assets| && assets[i].image !in existing ==>
      MakeImage(assets[i].obj, assets[i].language, assets[i].image) in JobsOf(assets, false, existing)
    ensures forall i :: 0 <= i < |assets| && assets[i].audio !in existing ==>
      MakeAudio(assets[i].obj, assets[i].language, assets[i].audio) in JobsOf(assets, false, existing)
    decreases |assets|
  {
    if |assets| > 0 {
      var n := |assets| - 1;
      var init, last := assets[..n], assets[n];
      CacheSkipsExisting(init, existing);
      var prev := JobsOf(init, false, existing);
      var cj := CardJobs(last, false, existing);
      var jobs := prev + cj;
      assert JobsOf(assets, false, existing) == jobs;
      CardJobsSkip(last, existing);
      forall k | 0 <= k < |jobs| ensures jobs[k].path !in existing {
        if k < |prev| {
          assert jobs[k] == prev[k];
          assert prev[k].path !in existing;
        } else {
          assert jobs[k] == cj[k - |prev|];
          assert cj[k - |prev|].path !in existing;
        }
      }
      forall i | 0 <= i < |assets| && assets[i].image !in existing
        ensures MakeImage(assets[i].obj, assets[i].language, assets[i].image) in jobs
      {
        if i < n {
          assert init[i] == assets[i];
        } else {
          assert cj[0] == MakeImage(last.obj, last.language, last.image);
        }
      }
      forall i | 0 <= i < |assets| && assets[i].audio !in existing
        ensures MakeAudio(assets[i].obj, assets[i].language, assets[i].audio) in jobs
      {
        if i < n {
          assert init[i] == assets[i];
        } else {
          assert cj[|cj| - 1] == MakeAudio(last.obj, last.language, last.audio);
        }
      }
    }
  }

  /** Without `regenerate`, a card's jobs target only files that do not exist. */
  lemma CardJobsSkip(a: Asset, existing: set<string>)
    ensures forall j :: 0 <= j < |CardJobs(a, false, existing)| ==> CardJobs(a, false, existing)[j].path !in existing
  {
    var img := if a.image !in existing then [MakeImage(a.obj, a.language, a.image)] else [];
    var aud := if a.audio !in existing then [MakeAudio(a.obj, a.language, a.audio)] else [];
    assert CardJobs(a, false, existing) == img + aud;
    assert forall j :: 0 <= j < |img| ==> img[j].path == a.image;
    assert forall j :: 0 <= j < |aud| ==> aud[j].path == a.audio;
  }

  /** The files the generator produces are the ones the timeline reads: the
      `i`-th card's asset names the image the `i`-th segment shows and its
      first clip; every other clip of the segment is that same clip or, for
      Mandarin, the breakdown clip `GenerateTts` saves beside it. */
  lemma AssetsMatchPlan(name: string, d: Dict)
    ensures var assets := AssetsOf(name, Cards(d));
      var plan := Plan(name, d);
      && |assets| == |plan|
      && forall i :: 0 <= i < |plan| ==>
           && plan[i].image == assets[i].image && plan[i].clips[0] == assets[i].audio
           && forall k :: 0 <= k < |plan[i].clips| ==>
                || plan[i].clips[k] == assets[i].audio
                || (assets[i].language == Mandarin && plan[i].clips[k] == BreakdownPath(assets[i].audio))
  {
    var assets := AssetsOf(name, Cards(d));
    var plan := Plan(name, d);
    forall i | 0 <= i < |plan|
      ensures plan[i].image == assets[i].image && plan[i].clips[0] == assets[i].audio
      ensures forall k :: 0 <= k < |plan[i].clips| ==>
                || plan[i].clips[k] == assets[i].audio
                || (assets[i].language == Mandarin && plan[i].clips[k] == BreakdownPath(assets[i].audio))
    {
      SegmentMatchesAsset(name, Cards(d)[i]);
    }
  }

  lemma SegmentMatchesAsset(name: string, c: Card)
    ensures var a := AssetOf(name, c); var s := SegmentOf(name, c);
      && s.image == a.image && s.clips[0] == a.audio
      && forall k :: 0 <= k < |s.clips| ==>
           || s.clips[k] == a.audio
           || (a.language == Mandarin && s.clips[k] == BreakdownPath(a.audio))
  {
  }

  /** With `regenerate`, the `2i`-th job draws exactly the image the `i`-th
      segment of the timeline shows and the next one speaks exactly its first
      clip, in the card's language. */
  lemma JobsCoverPlan(name: string, d: Dict, existing: set<string>)
    ensures var jobs := JobsOf(AssetsOf(name, Cards(d)), true, existing);
      var plan := Plan(name, d);
      && |jobs| == 2 * |plan|
      && forall i :: 0 <= i < |plan| ==>
           && jobs[2 * i].MakeImage? && jobs[2 * i].path == plan[i].image
           && jobs[2 * i + 1].MakeAudio? && jobs[2 * i + 1].path == plan[i].clips[0]
           && jobs[2 * i + 1].language == CardLanguage(Cards(d)[i])
  {
    RegenerateEverything(AssetsOf(name, Cards(d)), existing);
    AssetsMatchPlan(name, d);
  }
}

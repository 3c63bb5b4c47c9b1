/** `FileManager.save_as_html`: the page written to the `.html` file.

    A fixed page (inline style sheet, fixed class names `title`, `meta`,
    `hook`, `body-paragraph`, `cta`, `full-text`) with the field values pasted
    in as they are, nothing escaped. The title is written twice with two
    different defaults: `Historia` in `<title>`, `Historia Sin Título` in the
    `<h1 class="title">` heading. Every body paragraph becomes one
    `<div class="body-paragraph">` and the `Contenido` section holds nothing
    else. `Parse` reads the page back; `RoundTrip` shows it recovers every
    field whenever the inline fields hold no `<` (and the tone no line break). */
module HtmlExport {
  import opened Wrappers
  import opened Text
  import opened Stories
  import opened Clock

  const TabTitle := "Historia"

  /** The inline style sheet, one CSS line per literal. */
  const Style :=
      "        body {\n"
    + "            font-family: 'Arial', sans-serif;\n"
    + "            max-width: 800px;\n"
    + "            margin: 0 auto;\n"
    + "            padding: 20px;\n"
    + "            line-height: 1.6;\n"
    + "            color: #333;\n"
    + "        }\n"
    + "        .header {\n"
    + "            border-bottom: 2px solid #007acc;\n"
    + "            padding-bottom: 20px;\n"
    + "            margin-bottom: 30px;\n"
    + "        }\n"
    + "        .title {\n"
    + "            color: #007acc;\n"
    + "            font-size: 2.5em;\n"
    + "            margin-bottom: 10px;\n"
    + "        }\n"
    + "        .meta {\n"
    + "            color: #666;\n"
    + "            font-style: italic;\n"
    + "        }\n"
    + "        .section {\n"
    + "            margin: 30px 0;\n"
    + "        }\n"
    + "        .section-title {\n"
    + "            color: #007acc;\n"
    + "            font-size: 1.3em;\n"
    + "            border-left: 4px solid #007acc;\n"
    + "            padding-left: 15px;\n"
    + "            margin-bottom: 15px;\n"
    + "        }\n"
    + "        .hook {\n"
    + "            background: #f0f8ff;\n"
    + "            padding: 20px;\n"
    + "            border-radius: 8px;\n"
    + "            font-size: 1.1em;\n"
    + "            font-weight: bold;\n"
    + "        }\n"
    + "        .body-paragraph {\n"
    + "            margin: 15px 0;\n"
    + "            text-align: justify;\n"
    + "        }\n"
    + "        .cta {\n"
    + "            background: #007acc;\n"
    + "            color: white;\n"
    + "            padding: 20px;\n"
    + "            border-radius: 8px;\n"
    + "            font-weight: bold;\n"
    + "            text-align: center;\n"
    + "        }\n"
    + "        .full-text {\n"
    + "            background: #f9f9f9;\n"
    + "            padding: 20px;\n"
    + "            border-radius: 8px;\n"
    + "            border-left: 4px solid #ccc;\n"
    + "        }\n"

  // The page text between the fields.
  const Head :=
      "<!DOCTYPE html>\n"
    + "<html lang=\"es\">\n"
    + "<head>\n"
    + "    <meta charset=\"UTF-8\">\n"
    + "    <meta name=\"viewport\" content=\"width=device-width, initial-scale=1.0\">\n"
    + "    <title>"
  const HeaderOpen :=
      "</title>\n"
    + "    <style>\n"
    + Style
    + "    </style>\n"
    + "</head>\n"
    + "<body>\n"
    + "    <div class=\"header\">\n"
    + "        <h1 class=\"title\">"
  const MetaOpen :=
      "</h1>\n"
    + "        <div class=\"meta\">\n"
    + "            <strong>Tono:</strong> "
  const ToneSep := " | "
  const DateOpen :=
      "\n"
    + "            <strong>Fecha:</strong> "
  const HookOpen :=
      "\n"
    + "        </div>\n"
    + "    </div>\n"
    + "    \n"
    + "    <div class=\"section\">\n"
    + "        <h2 class=\"section-title\">Gancho</h2>\n"
    + "        <div class=\"hook\">"
  const BodyOpen :=
      "</div>\n"
    + "    </div>\n"
    + "    \n"
    + "    <div class=\"section\">\n"
    + "        <h2 class=\"section-title\">Contenido</h2>"
  const ParaOpen := "<div class=\"body-paragraph\">"
  const ParaClose := "</div>"
  const CtaOpen :=
      "\n"
    + "    </div>\n"
    + "    \n"
    + "    <div class=\"section\">\n"
    + "        <h2 class=\"section-title\">Llamada a la Acción</h2>\n"
    + "        <div class=\"cta\">"
  const FullTextOpen :=
      "</div>\n"
    + "    </div>\n"
    + "    \n"
    + "    <div class=\"section\">\n"
    + "        <h2 class=\"section-title\">Texto Completo</h2>\n"
    + "        <div class=\"full-text\">"
  const DocEnd :=
      "</div>\n"
    + "    </div>\n"
    + "</body>\n"
    + "</html>"

  // The first characters of the template pieces that follow a field: they
  // tell the reader where the field ends.
  lemma HeaderOpenStart() ensures HeaderOpen[0] == '<' {}
  lemma MetaOpenStart() ensures MetaOpen[0] == '<' {}
  lemma DateOpenStart() ensures DateOpen[0] == '\n' {}
  lemma HookOpenStart() ensures HookOpen[0] == '\n' {}
  lemma ParaOpenStart() ensures ParaOpen[0] == '<' {}
  lemma ParaCloseStart() ensures ParaClose[0] == '<' {}
  lemma CtaOpenStart() ensures CtaOpen[0] == '\n' {}
  lemma FullTextOpenStart() ensures FullTextOpen[0] == '<' {}

  /** One body paragraph, as the loop appends it. */
  function Block(p: string): string {
    ParaOpen + (p + ParaClose)
  }

  /** The body paragraphs, in order, with nothing between them. */
  function Paragraphs(ps: seq<string>): string {
    if |ps| == 0 then "" else Block(ps[0]) + Paragraphs(ps[1..])
  }

  /** The text appended after the loop. */
  function Closing(cta: string, fullText: string): string {
    CtaOpen + (cta + (FullTextOpen + (fullText + DocEnd)))
  }

  /** Everything from the tone onwards. */
  function Main(tone: string, date: string, hook: string, body: seq<string>,
                cta: string, fullText: string): string
  {
    tone + (ToneSep + (DateOpen + (date
    + (HookOpen + (hook
    + (BodyOpen + (Paragraphs(body) + Closing(cta, fullText))))))))
  }

  /** The whole page for `story` written at `now`. */
  function Render(story: Story, now: DateTime): string
    requires Valid(now)
  {
    var c := ContentOf(story);
    Head + (c.title.GetOr(TabTitle)
    + (HeaderOpen + (c.title.GetOr(UntitledTitle)
    + (MetaOpen + Main(story.tone.GetOr(UnspecifiedTone), Display(now),
                       c.hook.GetOr(""), c.body.GetOr([]),
                       c.callToAction.GetOr(""), c.fullText.GetOr(""))))))
  }

  // ---------------------------------------------------------------------------
  // Reading the page back
  // ---------------------------------------------------------------------------

  /** What a reader of the page sees: one value per element. */
  datatype Sections = Sections(
    tabTitle: string, heading: string, tone: string, date: string, hook: string,
    body: seq<string>, callToAction: string, fullText: string)

  /** The elements `Render` is meant to show for `story`, defaults applied. */
  function Expected(story: Story, now: DateTime): Sections
    requires Valid(now)
  {
    var c := ContentOf(story);
    Sections(
      c.title.GetOr(TabTitle), c.title.GetOr(UntitledTitle),
      story.tone.GetOr(UnspecifiedTone), Display(now), c.hook.GetOr(""),
      c.body.GetOr([]), c.callToAction.GetOr(""), c.fullText.GetOr(""))
  }

  /** Reads `body-paragraph` elements until something else follows. */
  function ParseParagraphs(s: string): Option<(seq<string>, string)>
    decreases |s|
  {
    match ExpectLit(s, ParaOpen)
    case None => Some(([], s))
    case Some(r0) =>
      var p := Until(r0, '<');
      var r1 :- ExpectLit(p.1, ParaClose);
      var rest :- ParseParagraphs(r1);
      Some(([p.0] + rest.0, rest.1))
  }

  /** Reads everything from the tone onwards. */
  function ParseMain(s: string, tabTitle: string, heading: string): Option<Sections> {
    var toneLine := Until(s, '\n');
    var tone :- StripSuffix(toneLine.0, ToneSep);
    var r4 :- ExpectLit(toneLine.1, DateOpen);
    var date := Until(r4, '\n');
    var r5 :- ExpectLit(date.1, HookOpen);
    var hook := Until(r5, '<');
    var r6 :- ExpectLit(hook.1, BodyOpen);
    var body :- ParseParagraphs(r6);
    var r7 :- ExpectLit(body.1, CtaOpen);
    var cta := Until(r7, '<');
    var r8 :- ExpectLit(cta.1, FullTextOpen);
    var fullText :- StripSuffix(r8, DocEnd);
    Some(Sections(tabTitle, heading, tone, date.0, hook.0, body.0, cta.0, fullText))
  }

  /** The two titles at the top of the page, and the text after the meta
      line's opening tag. */
  datatype Titles = Titles(tabTitle: string, heading: string, rest: string)

  /** Reads the `<h1>` heading, up to the meta line. */
  function ParseHeading(s: string, tabTitle: string): Option<Titles> {
    var heading := Until(s, '<');
    var r :- ExpectLit(heading.1, MetaOpen);
    Some(Titles(tabTitle, heading.0, r))
  }

  /** Reads the `<title>`, then the heading. */
  function ParseTitles(doc: string): Option<Titles> {
    var r1 :- ExpectLit(doc, Head);
    var tabTitle := Until(r1, '<');
    var r2 :- ExpectLit(tabTitle.1, HeaderOpen);
    ParseHeading(r2, tabTitle.0)
  }

  function Parse(doc: string): Option<Sections> {
    var t :- ParseTitles(doc);
    ParseMain(t.rest, t.tabTitle, t.heading)
  }

  /** Text that cannot open or close an element. */
  predicate TagFree(x: string) {
    '<' !in x
  }

  predicate PresentTagFree(x: Option<string>) {
    x.Some? ==> TagFree(x.value)
  }

  /** The element contents hold no `<`, the tone no line break; the full text,
      written last, is unrestricted. */
  predicate Writable(story: Story) {
    var c := ContentOf(story);
    && PresentTagFree(c.title)
    && (story.tone.Some? ==> '\n' !in story.tone.value)
    && PresentTagFree(c.hook)
    && PresentTagFree(c.callToAction)
    && (c.body.Some? ==> forall i :: 0 <= i < |c.body.value| ==> TagFree(c.body.value[i]))
  }

  /** One step of `ParseParagraphs`. */
  lemma ParagraphStep(p: string, rest: string)
    requires TagFree(p)
    ensures ParseParagraphs(Block(p) + rest) ==
      (var r := ParseParagraphs(rest);
       if r.None? then None else Some(([p] + r.value.0, r.value.1)))
  {
    assert Block(p) + rest == ParaOpen + (p + (ParaClose + rest));
    ParaCloseStart();
    ExpectLitConcat(ParaOpen, p + (ParaClose + rest));
    UntilConcat(p, '<', ParaClose + rest);
    ExpectLitConcat(ParaClose, rest);
  }

  /** Every paragraph comes back, in order, and the reading stops exactly at
      the text after the last one. */
  lemma {:induction false} ParagraphsRoundTrip(ps: seq<string>, tail: string)
    requires forall i :: 0 <= i < |ps| ==> TagFree(ps[i])
    requires |tail| > 0 && tail[0] == '\n'
    ensures ParseParagraphs(Paragraphs(ps) + tail) == Some((ps, tail))
  {
    if |ps| == 0 {
      assert Paragraphs(ps) + tail == tail;
      ParaOpenStart();
    } else {
      var rest := Paragraphs(ps[1..]) + tail;
      assert Paragraphs(ps) + tail == Block(ps[0]) + rest;
      assert TagFree(ps[0]);
      ParagraphStep(ps[0], rest);
      ParagraphsRoundTrip(ps[1..], tail);
      assert [ps[0]] + ps[1..] == ps;
    }
  }

  lemma MainRoundTrip(tone: string, date: string, hook: string, body: seq<string>,
                      cta: string, fullText: string, tabTitle: string, heading: string)
    requires '\n' !in tone && '\n' !in date
    requires TagFree(hook) && TagFree(cta)
    requires forall i :: 0 <= i < |body| ==> TagFree(body[i])
    ensures ParseMain(Main(tone, date, hook, body, cta, fullText), tabTitle, heading)
      == Some(Sections(tabTitle, heading, tone, date, hook, body, cta, fullText))
  {
    assert '\n' !in tone + ToneSep;
    DateOpenStart();
    var t8 := FullTextOpen + (fullText + DocEnd);
    var t7 := cta + t8;
    var closing := CtaOpen + t7;
    var t6 := Paragraphs(body) + closing;
    var t5 := BodyOpen + t6;
    var t4 := hook + t5;
    var u4 := HookOpen + t4;
    var t3 := date + u4;
    var u3 := DateOpen + t3;
    assert Main(tone, date, hook, body, cta, fullText) == (tone + ToneSep) + u3;

    UntilConcat(tone + ToneSep, '\n', u3);
    StripSuffixConcat(tone, ToneSep);
    ExpectLitConcat(DateOpen, t3);
    HookOpenStart();
    CtaOpenStart();
    FullTextOpenStart();
    UntilConcat(date, '\n', u4);
    ExpectLitConcat(HookOpen, t4);
    UntilConcat(hook, '<', t5);
    ExpectLitConcat(BodyOpen, t6);
    ParagraphsRoundTrip(body, closing);
    ExpectLitConcat(CtaOpen, t7);
    UntilConcat(cta, '<', t8);
    ExpectLitConcat(FullTextOpen, fullText + DocEnd);
    StripSuffixConcat(fullText, DocEnd);
  }

  /** The page up to the tone is read as its two titles, and the rest is
      left to `ParseMain`. */
  lemma HeaderRoundTrip(tabTitle: string, heading: string, main: string)
    requires TagFree(tabTitle) && TagFree(heading)
    ensures ParseTitles(Head + (tabTitle + (HeaderOpen + (heading + (MetaOpen + main)))))
      == Some(Titles(tabTitle, heading, main))
    ensures Parse(Head + (tabTitle + (HeaderOpen + (heading + (MetaOpen + main)))))
      == ParseMain(main, tabTitle, heading)
  {
    var t1 := heading + (MetaOpen + main);
    ExpectLitConcat(Head, tabTitle + (HeaderOpen + t1));
    HeaderOpenStart();
    UntilConcat(tabTitle, '<', HeaderOpen + t1);
    ExpectLitConcat(HeaderOpen, t1);
    MetaOpenStart();
    UntilConcat(heading, '<', MetaOpen + main);
    ExpectLitConcat(MetaOpen, main);
  }

  /** Reading the written page gives back every element, with the defaults of
      absent keys (two different ones for the title), whenever the story is
      `Writable`. */
  lemma RoundTrip(story: Story, now: DateTime)
    requires Valid(now)
    requires Writable(story)
    ensures Parse(Render(story, now)) == Some(Expected(story, now))
  {
    var c := ContentOf(story);
    var tab := c.title.GetOr(TabTitle);
    var heading := c.title.GetOr(UntitledTitle);
    var tone := story.tone.GetOr(UnspecifiedTone);
    DisplayShape(now);
    assert TagFree(tab) && TagFree(heading) && '\n' !in tone;
    MainRoundTrip(tone, Display(now), c.hook.GetOr(""), c.body.GetOr([]),
                  c.callToAction.GetOr(""), c.fullText.GetOr(""), tab, heading);
    HeaderRoundTrip(tab, heading, Main(tone, Display(now), c.hook.GetOr(""), c.body.GetOr([]),
                                       c.callToAction.GetOr(""), c.fullText.GetOr("")));
  }

  /** The titles need only a tag-free stored title, whatever the rest of the
      story holds: a stored title is read back from both places, and only an
      absent one tells them apart, the tab then reading `Historia` and the
      heading `Historia Sin Título`. On a writable story the full reading
      agrees. */
  lemma TitleDefaultsDiffer(story: Story, now: DateTime)
    requires Valid(now)
    requires PresentTagFree(ContentOf(story).title)
    ensures ParseTitles(Render(story, now)).Some?
    ensures ContentOf(story).title.Some? ==>
      ParseTitles(Render(story, now)).value.tabTitle == ContentOf(story).title.value &&
      ParseTitles(Render(story, now)).value.heading == ContentOf(story).title.value
    ensures ContentOf(story).title.None? ==>
      ParseTitles(Render(story, now)).value.tabTitle == "Historia" &&
      ParseTitles(Render(story, now)).value.heading == "Historia Sin Título"
    ensures Writable(story) ==>
      Parse(Render(story, now)).Some? &&
      Parse(Render(story, now)).value.tabTitle == ParseTitles(Render(story, now)).value.tabTitle &&
      Parse(Render(story, now)).value.heading == ParseTitles(Render(story, now)).value.heading
  {
    var c := ContentOf(story);
    var tab := c.title.GetOr(TabTitle);
    var heading := c.title.GetOr(UntitledTitle);
    assert TagFree(tab) && TagFree(heading);
    HeaderRoundTrip(tab, heading, Main(story.tone.GetOr(UnspecifiedTone), Display(now), c.hook.GetOr(""),
                                       c.body.GetOr([]), c.callToAction.GetOr(""), c.fullText.GetOr("")));
    if Writable(story) {
      RoundTrip(story, now);
    }
  }
}

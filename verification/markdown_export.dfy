/** `FileManager.save_as_markdown`: the text written to the `.md` file.

    The document is a fixed template with the field values pasted in as they
    are (nothing is escaped):

        # <title>
        (blank)
        **Tono:** <tone>
        **Fecha:** <dd/mm/YYYY HH:MM>
        (blank)
        ---
        (blank)
        ## Gancho
        <hook>
        (blank)
        ## Contenido
        then "\n" + p + "\n" for every body paragraph p, in order, then
        (blank)
        ## Llamada a la Acción
        <call to action>
        (blank)
        ---
        (blank)
        ### Texto Completo
        <full text>

    `Parse` reads such a document back; `RoundTrip` shows it recovers every
    section whenever the single-line fields hold no line break. */
module MarkdownExport {
  import opened Wrappers
  import opened Text
  import opened Stories
  import opened Clock

  // The template text between the fields.
  const TitleOpen := "# "
  const ToneOpen := "\n\n**Tono:** "
  const DateOpen := "\n**Fecha:** "
  const HookOpen := "\n\n---\n\n## Gancho\n"
  const BodyOpen := "\n\n## Contenido\n"
  const CtaHeading := "## Llamada a la Acción"
  const CtaOpen := "\n" + CtaHeading + "\n"
  const FullTextOpen := "\n\n---\n\n### Texto Completo\n"
  const DocEnd := "\n"

  /** One body paragraph, as the loop appends it. */
  function Block(p: string): string {
    "\n" + p + "\n"
  }

  /** The body paragraphs, in order. */
  function Paragraphs(ps: seq<string>): string {
    if |ps| == 0 then "" else Block(ps[0]) + Paragraphs(ps[1..])
  }

  /** The text appended after the loop. */
  function Closing(cta: string, fullText: string): string {
    CtaOpen + (cta + (FullTextOpen + (fullText + DocEnd)))
  }

  /** The whole document for `story` written at `now`. Every absent key takes
      its own default: title `Historia Sin Título`, tone `No especificado`,
      hook, call to action and full text empty, body no paragraphs. */
  function Render(story: Story, now: DateTime): string
    requires Valid(now)
  {
    var c := ContentOf(story);
    TitleOpen + (c.title.GetOr(UntitledTitle)
    + (ToneOpen + (story.tone.GetOr(UnspecifiedTone)
    + (DateOpen + (Display(now)
    + (HookOpen + (c.hook.GetOr("")
    + (BodyOpen + (Paragraphs(c.body.GetOr([]))
    + Closing(c.callToAction.GetOr(""), c.fullText.GetOr("")))))))))))
  }

  // ---------------------------------------------------------------------------
  // Reading the document back
  // ---------------------------------------------------------------------------

  /** What a reader of the document sees: one value per section. */
  datatype Sections = Sections(
    title: string, tone: string, date: string, hook: string,
    body: seq<string>, callToAction: string, fullText: string)

  /** The sections `Render` is meant to show for `story`, defaults applied. */
  function Expected(story: Story, now: DateTime): Sections
    requires Valid(now)
  {
    var c := ContentOf(story);
    Sections(
      c.title.GetOr(UntitledTitle), story.tone.GetOr(UnspecifiedTone), Display(now),
      c.hook.GetOr(""), c.body.GetOr([]), c.callToAction.GetOr(""), c.fullText.GetOr(""))
  }

  /** Reads the body paragraphs up to the call-to-action heading. */
  function ParseParagraphs(s: string): Option<(seq<string>, string)>
    decreases |s|
  {
    if CtaOpen <= s then Some(([], s))
    else
      var r0 :- ExpectLit(s, "\n");
      var p := Until(r0, '\n');
      var r1 :- ExpectLit(p.1, "\n");
      var rest :- ParseParagraphs(r1);
      Some(([p.0] + rest.0, rest.1))
  }

  function Parse(doc: string): Option<Sections> {
    var r1 :- ExpectLit(doc, TitleOpen);
    var title := Until(r1, '\n');
    var r2 :- ExpectLit(title.1, ToneOpen);
    var tone := Until(r2, '\n');
    var r3 :- ExpectLit(tone.1, DateOpen);
    var date := Until(r3, '\n');
    var r4 :- ExpectLit(date.1, HookOpen);
    var hook := Until(r4, '\n');
    var r5 :- ExpectLit(hook.1, BodyOpen);
    var body :- ParseParagraphs(r5);
    var r6 :- ExpectLit(body.1, CtaOpen);
    var cta := Until(r6, '\n');
    var r7 :- ExpectLit(cta.1, FullTextOpen);
    var fullText :- StripSuffix(r7, DocEnd);
    Some(Sections(title.0, tone.0, date.0, hook.0, body.0, cta.0, fullText))
  }

  predicate LineSafe(x: string) {
    '\n' !in x
  }

  /** A paragraph the reader can tell apart from its neighbours and from the
      heading that closes the body. */
  predicate ParagraphSafe(p: string) {
    LineSafe(p) && p != CtaHeading
  }

  predicate PresentLineSafe(x: Option<string>) {
    x.Some? ==> LineSafe(x.value)
  }

  /** The single-line fields hold no line break and no paragraph could be
      mistaken for the call-to-action heading; the full text is unrestricted. */
  predicate Writable(story: Story) {
    var c := ContentOf(story);
    && PresentLineSafe(c.title)
    && PresentLineSafe(story.tone)
    && PresentLineSafe(c.hook)
    && PresentLineSafe(c.callToAction)
    && (c.body.Some? ==> forall i :: 0 <= i < |c.body.value| ==> ParagraphSafe(c.body.value[i]))
  }

  /** A paragraph block starts with the call-to-action heading only if the
      paragraph is that heading. */
  lemma BlockAgainstHeading(p: string, rest: string)
    requires LineSafe(p)
    ensures CtaOpen <= Block(p) + rest ==> p == CtaHeading
  {
    var t := Block(p) + rest;
    if CtaOpen <= t {
      var after := t[|CtaOpen|..];
      assert t == CtaOpen + after;
      assert t[1..] == CtaHeading + ("\n" + after);
      assert t[1..] == p + ("\n" + rest);
      UntilConcat(CtaHeading, '\n', "\n" + after);
      UntilConcat(p, '\n', "\n" + rest);
    }
  }

  /** One step of `ParseParagraphs`: a safe paragraph block is read as that
      paragraph, followed by whatever the rest reads as. */
  lemma ParagraphStep(p: string, rest: string)
    requires ParagraphSafe(p)
    ensures ParseParagraphs(Block(p) + rest) ==
      (var r := ParseParagraphs(rest);
       if r.None? then None else Some(([p] + r.value.0, r.value.1)))
  {
    var s := Block(p) + rest;
    BlockAgainstHeading(p, rest);
    assert s == "\n" + (p + ("\n" + rest));
    ExpectLitConcat("\n", p + ("\n" + rest));
    UntilConcat(p, '\n', "\n" + rest);
    ExpectLitConcat("\n", rest);
  }

  /** The body paragraphs come back in order and in number. */
  lemma {:induction false} ParagraphsRoundTrip(ps: seq<string>, tail: string)
    requires forall i :: 0 <= i < |ps| ==> ParagraphSafe(ps[i])
    requires CtaOpen <= tail
    ensures ParseParagraphs(Paragraphs(ps) + tail) == Some((ps, tail))
  {
    if |ps| == 0 {
      assert Paragraphs(ps) + tail == tail;
    } else {
      var rest := Paragraphs(ps[1..]) + tail;
      assert Paragraphs(ps) + tail == Block(ps[0]) + rest;
      assert ParagraphSafe(ps[0]);
      ParagraphStep(ps[0], rest);
      ParagraphsRoundTrip(ps[1..], tail);
      assert [ps[0]] + ps[1..] == ps;
    }
  }

  /** Reading the written document gives back every section, with the
      defaults of absent keys, whenever the story is `Writable`. */
  lemma RoundTrip(story: Story, now: DateTime)
    requires Valid(now)
    requires Writable(story)
    ensures Parse(Render(story, now)) == Some(Expected(story, now))
  {
    var c := ContentOf(story);
    var title := c.title.GetOr(UntitledTitle);
    var tone := story.tone.GetOr(UnspecifiedTone);
    var date := Display(now);
    var hook := c.hook.GetOr("");
    var body := c.body.GetOr([]);
    var cta := c.callToAction.GetOr("");
    var full := c.fullText.GetOr("");
    DisplayShape(now);
    assert LineSafe(title) && LineSafe(tone);

    var t7 := FullTextOpen + (full + DocEnd);
    var t6 := cta + t7;
    var closing := CtaOpen + t6;
    var t5 := Paragraphs(body) + closing;
    var t4 := BodyOpen + t5;
    var t3 := hook + t4;
    var u3 := HookOpen + t3;
    var t2 := date + u3;
    var u2 := DateOpen + t2;
    var t1 := tone + u2;
    var u1 := ToneOpen + t1;
    var t0 := title + u1;
    assert Render(story, now) == TitleOpen + t0;

    ExpectLitConcat(TitleOpen, t0);
    UntilConcat(title, '\n', u1);
    ExpectLitConcat(ToneOpen, t1);
    UntilConcat(tone, '\n', u2);
    ExpectLitConcat(DateOpen, t2);
    UntilConcat(date, '\n', u3);
    ExpectLitConcat(HookOpen, t3);
    UntilConcat(hook, '\n', t4);
    ExpectLitConcat(BodyOpen, t5);
    ParagraphsRoundTrip(body, closing);
    ExpectLitConcat(CtaOpen, t6);
    UntilConcat(cta, '\n', t7);
    ExpectLitConcat(FullTextOpen, full + DocEnd);
    StripSuffixConcat(full, DocEnd);
  }

  lemma ParagraphsBlankLine(a: string, b: string)
    ensures Paragraphs([a + "\n\n" + b]) == Paragraphs([a, b])
  {
    assert [a + "\n\n" + b][1..] == [];
    assert [a, b][1..] == [b];
    assert [b][1..] == [];
    assert Paragraphs([b]) == Block(b) + Paragraphs([]);
  }

  /** Field values are pasted in verbatim: a paragraph that contains a blank
      line writes the same text as the two paragraphs on either side of it. */
  lemma BlankLineSplitsParagraph(story: Story, now: DateTime, a: string, b: string)
    requires Valid(now)
    ensures
      var c := ContentOf(story);
      Render(story.(content := Some(c.(body := Some([a + "\n\n" + b])))), now)
      == Render(story.(content := Some(c.(body := Some([a, b])))), now)
  {
    ParagraphsBlankLine(a, b);
  }
}

/** The decision rules of `StoryCrew`, the Streamlit orchestrator: how the
    form becomes `user_specs`, which content agent a platform selects, how
    the crew's output becomes a story record, which files `save_story`
    writes and what it reports, what it sends to the remote store, and how a
    remote row is shown as a local record. The UI, the crew run and the
    remote calls themselves are parameters. */
module Orchestrator {
  import opened Wrappers
  import opened Text
  import opened Stories
  import opened Clock
  import opened FileNaming
  import opened Archive
  import MarkdownExport

  // ---------------------------------------------------------------------------
  // The form
  // ---------------------------------------------------------------------------

  /** The platforms and tones the form offers. */
  const PlatformLabels := ["Facebook", "LinkedIn", "Instagram", "Twitter/X"]
  const ToneLabels := ["Profesional", "Divertido", "Inspiracional", "Educativo", "Casual", "Formal"]

  /** `user_specs`: the platform and the extra text as chosen, the tone
      lower-cased. */
  function MakeUserSpecs(platform: string, tone: string, additional: string): (u: UserSpecs)
    ensures u.platform == platform && u.additionalSpecs == additional
    ensures |u.tone| == |tone| && IsLower(u.tone)
    ensures forall i :: 0 <= i < |tone| && !IsUpper(tone[i]) ==> u.tone[i] == tone[i]
    ensures forall i :: 0 <= i < |tone| && IsUpper(tone[i]) ==> u.tone[i] == LowerChar(tone[i])
  {
    ToLowerSpec(tone);
    UserSpecs(platform, ToLower(tone), additional)
  }

  /** Building the specs from their own result changes nothing, and the
      form's first tone becomes `profesional`, the remote store's default. */
  lemma UserSpecsStable(platform: string, tone: string, additional: string)
    ensures var u := MakeUserSpecs(platform, tone, additional);
      MakeUserSpecs(u.platform, u.tone, u.additionalSpecs) == u
    ensures MakeUserSpecs(platform, ToneLabels[0], additional).tone == RemoteDefaultTone
  {
    ToLowerSpec(tone);
    var t := MakeUserSpecs(platform, ToneLabels[0], additional).tone;
    assert t == ToLower("Profesional");
    assert t[0] == 'p';
  }

  // ---------------------------------------------------------------------------
  // Platform dispatch
  // ---------------------------------------------------------------------------

  /** The content agent (and its task) the crew runs after the vision agent. */
  datatype Channel = Facebook | LinkedIn | Instagram | Twitter

  /** The lower-case name each channel other than Twitter is chosen by. */
  function Key(c: Channel): string {
    match c
    case Facebook => "facebook"
    case LinkedIn => "linkedin"
    case Instagram => "instagram"
    case Twitter => "twitter"
  }

  function Dispatch(platform: string): Channel {
    var p := ToLower(platform);
    if p == "facebook" then Facebook
    else if p == "linkedin" then LinkedIn
    else if p == "instagram" then Instagram
    else Twitter
  }

  /** Facebook, LinkedIn and Instagram are chosen exactly by their own name in
      any letter case; every other platform value falls to Twitter. */
  lemma DispatchSpec(platform: string)
    ensures forall c :: c != Twitter ==> (Dispatch(platform) == c <==> ToLower(platform) == Key(c))
    ensures Dispatch(platform) == Twitter <==>
      ToLower(platform) != "facebook" && ToLower(platform) != "linkedin" && ToLower(platform) != "instagram"
    ensures Dispatch(ToLower(platform)) == Dispatch(platform)
  {
    ToLowerSpec(platform);
  }

  /** The four labels the form offers reach the four agents. */
  lemma DispatchLabels()
    ensures Dispatch(PlatformLabels[0]) == Facebook
    ensures Dispatch(PlatformLabels[1]) == LinkedIn
    ensures Dispatch(PlatformLabels[2]) == Instagram
    ensures Dispatch(PlatformLabels[3]) == Twitter
  {
    assert ToLower("Facebook") == "facebook";
    assert ToLower("LinkedIn") == "linkedin";
    assert ToLower("Instagram") == "instagram";
    assert ToLower("Twitter/X")[0] == 't';
  }

  // ---------------------------------------------------------------------------
  // Shaping the crew's result
  // ---------------------------------------------------------------------------

  /** What `crew.kickoff()` produced: its text, and the object `json.loads`
      decodes from it, or `None` when decoding raises. */
  datatype CrewOutput = CrewOutput(raw: string, parsed: Option<Content>)

  const GeneratedTitle := "Historia Generada"

  /** The record `execute_story_creation` returns. */
  function ShapeResult(output: CrewOutput, specs: UserSpecs, imagePath: string, now: DateTime): (s: Story)
    requires Valid(now)
    ensures s.content.Some?
    ensures s.platform == Some(specs.platform) && s.tone == Some(specs.tone)
    ensures s.imagePath == Some(imagePath) && s.userSpecs == Some(specs)
    ensures s.createdAt == Some(Iso(now))
    ensures s.id.None? && s.filename.None? && s.filepath.None?
  {
    var content := match output.parsed
      case Some(c) => c
      case None => Content(Some(GeneratedTitle), None, None, None, None, Some(output.raw));
    Story(Some(content), Some(specs.platform), Some(specs.tone), Some(imagePath),
          Some(Iso(now)), Some(specs), None, None, None)
  }

  /** A decoded result becomes the content as it is; otherwise the content
      holds only the title `Historia Generada` and the raw text; and whether
      decoding succeeded changes nothing but the content. */
  lemma ShapeResultSpec(raw: string, parsed: Option<Content>, specs: UserSpecs, imagePath: string, now: DateTime)
    requires Valid(now)
    ensures parsed.Some? ==> ShapeResult(CrewOutput(raw, parsed), specs, imagePath, now).content == parsed
    ensures parsed.None? ==>
      ContentOf(ShapeResult(CrewOutput(raw, parsed), specs, imagePath, now))
      == EmptyContent.(title := Some(GeneratedTitle), fullText := Some(raw))
    ensures ShapeResult(CrewOutput(raw, parsed), specs, imagePath, now).(content := None)
      == ShapeResult(CrewOutput(raw, None), specs, imagePath, now).(content := None)
  {
  }

  /** A result that did not decode is exported to Markdown under the title
      `Historia Generada`, with an empty hook, no body paragraphs, an empty
      call to action and the raw crew text as the full text. */
  lemma FallbackExport(raw: string, specs: UserSpecs, imagePath: string, created: DateTime, now: DateTime)
    requires Valid(created) && Valid(now)
    requires '\n' !in specs.tone
    ensures
      var story := ShapeResult(CrewOutput(raw, None), specs, imagePath, created);
      MarkdownExport.Parse(MarkdownExport.Render(story, now))
      == Some(MarkdownExport.Sections(GeneratedTitle, specs.tone, Display(now), "", [], "", raw))
  {
    var story := ShapeResult(CrewOutput(raw, None), specs, imagePath, created);
    assert '\n' !in GeneratedTitle;
    MarkdownExport.RoundTrip(story, now);
  }

  // ---------------------------------------------------------------------------
  // `save_story`: the local formats
  // ---------------------------------------------------------------------------

  /** The label the multiselect shows for each format. */
  function Label(f: Format): string {
    match f
    case Json => "JSON"
    case Markdown => "Markdown"
    case Html => "HTML"
    case Pdf => "PDF"
  }

  /** The `if`/`elif` chain: which saver a selected label calls, if any. */
  function FormatOfLabel(choice: string): Option<Format> {
    if choice == "JSON" then Some(Json)
    else if choice == "Markdown" then Some(Markdown)
    else if choice == "HTML" then Some(Html)
    else if choice == "PDF" then Some(Pdf)
    else None
  }

  /** Exactly the four labels are recognised, each as its own format. */
  lemma LabelRoundTrip(choice: string, f: Format)
    ensures FormatOfLabel(Label(f)) == Some(f)
    ensures FormatOfLabel(choice) == Some(f) <==> choice == Label(f)
  {
  }

  /** The line `save_story` reports for one file. */
  function Report(f: Format, path: string): string {
    Label(f) + ": " + path
  }

  /** What the file written by one saver holds, as the loader would read it:
      the record for JSON, something that is not a record otherwise. */
  function Written(f: Format, story: Story): Option<Story> {
    if f == Json then Some(story) else None
  }

  /** The saves one selected label asks for: its format and the clock
      reading its saver takes, or nothing. */
  function Wanted(choice: string, t: DateTime): seq<(Format, DateTime)> {
    match FormatOfLabel(choice)
    case Some(f) => [(f, t)]
    case None => []
  }

  /** The labels the loop recognises, each paired with the clock reading its
      saver takes, in order. */
  function Recognised(labels: seq<string>, times: seq<DateTime>): (r: seq<(Format, DateTime)>)
    requires |times| == |labels|
    ensures |r| <= |labels|
  {
    if |labels| == 0 then []
    else
      var n := |labels| - 1;
      Recognised(labels[..n], times[..n]) + Wanted(labels[n], times[n])
  }

  /** One turn of the loop: the saver the label selects, if any, writes its
      default-named file and its line is added to the report. */
  function Step(prior: (Directory, seq<string>), base: string, story: Story, choice: string, t: DateTime): (Directory, seq<string>)
    requires Valid(t)
  {
    match FormatOfLabel(choice)
    case None => prior
    case Some(f) =>
      (prior.0[DefaultName(t, f) := Written(f, story)], prior.1 + [Report(f, SavePath(base, None, t, f))])
  }

  /** The local half of `save_story`: one default-named file per recognised
      label, in order, and one report line per file. `times[i]` is the
      clock reading the saver of `labels[i]` takes. */
  function SaveLocal(dir: Directory, base: string, story: Story, labels: seq<string>, times: seq<DateTime>): (r: (Directory, seq<string>))
    requires |times| == |labels|
    requires forall i :: 0 <= i < |times| ==> Valid(times[i])
    ensures |r.1| == |Recognised(labels, times)|
    decreases |labels|
  {
    if |labels| == 0 then (dir, [])
    else
      var n := |labels| - 1;
      Step(SaveLocal(dir, base, story, labels[..n], times[..n]), base, story, labels[n], times[n])
  }

  /** The report line for one recognised label: the label and the path of
      the default-named file its saver returned. */
  function Line(base: string, w: (Format, DateTime)): string
    requires Valid(w.1)
  {
    Report(w.0, SavePath(base, None, w.1, w.0))
  }

  /** `out` holds, in order, the line of each save in `saves`. */
  predicate Reports(base: string, out: seq<string>, saves: seq<(Format, DateTime)>) {
    && |out| == |saves|
    && forall i :: 0 <= i < |saves| ==> Valid(saves[i].1) && out[i] == Line(base, saves[i])
  }

  lemma StepReports(prior: (Directory, seq<string>), saves: seq<(Format, DateTime)>, base: string, story: Story, choice: string, t: DateTime)
    requires Valid(t) && Reports(base, prior.1, saves)
    ensures Reports(base, Step(prior, base, story, choice, t).1, saves + Wanted(choice, t))
  {
    match FormatOfLabel(choice)
    case None =>
      assert saves + [] == saves;
    case Some(f) =>
      var out := Step(prior, base, story, choice, t).1;
      assert out == prior.1 + [Line(base, (f, t))];
  }

  /** The report lists, in order, one line per recognised label: its label
      and the path of the default-named file its saver returned. */
  lemma {:induction false} SaveLocalReports(dir: Directory, base: string, story: Story, labels: seq<string>, times: seq<DateTime>)
    requires |times| == |labels|
    requires forall i :: 0 <= i < |times| ==> Valid(times[i])
    ensures Reports(base, SaveLocal(dir, base, story, labels, times).1, Recognised(labels, times))
    decreases |labels|
  {
    if |labels| > 0 {
      var n := |labels| - 1;
      SaveLocalReports(dir, base, story, labels[..n], times[..n]);
      var prior := SaveLocal(dir, base, story, labels[..n], times[..n]);
      StepReports(prior, Recognised(labels[..n], times[..n]), base, story, labels[n], times[n]);
    }
  }

  /** Labels the loop does not recognise write nothing and report nothing. */
  lemma {:induction false} UnrecognisedIgnored(dir: Directory, base: string, story: Story, labels: seq<string>, times: seq<DateTime>)
    requires |times| == |labels|
    requires forall i :: 0 <= i < |times| ==> Valid(times[i])
    requires forall i :: 0 <= i < |labels| ==> FormatOfLabel(labels[i]).None?
    ensures SaveLocal(dir, base, story, labels, times) == (dir, [])
    decreases |labels|
  {
    if |labels| > 0 {
      var n := |labels| - 1;
      UnrecognisedIgnored(dir, base, story, labels[..n], times[..n]);
    }
  }

  /** A later turn of the loop leaves the default JSON file of an earlier
      `JSON` label holding the story. */
  lemma StepKeepsJson(prior: (Directory, seq<string>), base: string, story: Story, choice: string, t: DateTime, earlier: DateTime)
    requires Valid(t) && Valid(earlier)
    requires Load(prior.0, DefaultName(earlier, Json)) == Some(story)
    ensures Load(Step(prior, base, story, choice, t).0, DefaultName(earlier, Json)) == Some(story)
  {
    match FormatOfLabel(choice)
    case None =>
    case Some(f) =>
      DefaultNameCollision(t, earlier, f, Json);
  }

  /** After the loop, the default JSON file of every `JSON` label holds the
      story: the other savers write names with other extensions, and a
      second JSON save in the same second writes the same record again. */
  lemma {:induction false} JsonSavesHoldStory(dir: Directory, base: string, story: Story, labels: seq<string>, times: seq<DateTime>, i: nat)
    requires |times| == |labels|
    requires forall k :: 0 <= k < |times| ==> Valid(times[k])
    requires i < |labels| && labels[i] == "JSON"
    ensures Load(SaveLocal(dir, base, story, labels, times).0, DefaultName(times[i], Json)) == Some(story)
    decreases |labels|
  {
    var n := |labels| - 1;
    var prior := SaveLocal(dir, base, story, labels[..n], times[..n]);
    assert SaveLocal(dir, base, story, labels, times) == Step(prior, base, story, labels[n], times[n]);
    if i < n {
      assert labels[..n][i] == labels[i] && times[..n][i] == times[i];
      JsonSavesHoldStory(dir, base, story, labels[..n], times[..n], i);
      StepKeepsJson(prior, base, story, labels[n], times[n], times[i]);
    }
  }

  // ---------------------------------------------------------------------------
  // `save_story`: the remote store
  // ---------------------------------------------------------------------------

  const RemoteDefaultTone := "profesional"

  /** The `metadata` column: the form's specs as a dictionary, or `{}`. */
  function Metadata(specs: Option<UserSpecs>): map<string, string> {
    match specs
    case None => map[]
    case Some(u) => map["platform" := u.platform, "tone" := u.tone, "additional_specs" := u.additionalSpecs]
  }

  /** The arguments `save_story` passes to the remote store. */
  datatype Request = Request(userId: string, title: string, content: Content, tone: string, metadata: map<string, string>)

  function RemoteRequest(userId: string, story: Story): (q: Request)
    ensures q.userId == userId && q.content == ContentOf(story)
  {
    var c := ContentOf(story);
    Request(userId, c.title.GetOr(UntitledTitle), c, story.tone.GetOr(RemoteDefaultTone), Metadata(story.userSpecs))
  }

  /** The request's title, tone and metadata fall back to `Historia Sin
      Título`, `profesional` and `{}` exactly when the story lacks them, and
      the metadata holds the specs' platform when there are specs. */
  lemma RemoteRequestSpec(userId: string, story: Story)
    ensures var q := RemoteRequest(userId, story);
      && (ContentOf(story).title.Some? ==> q.title == ContentOf(story).title.value)
      && (ContentOf(story).title.None? ==> q.title == UntitledTitle)
      && (story.tone.Some? ==> q.tone == story.tone.value)
      && (story.tone.None? ==> q.tone == RemoteDefaultTone)
      && (q.metadata == map[] <==> story.userSpecs.None?)
      && (story.userSpecs.Some? ==> "platform" in q.metadata && q.metadata["platform"] == story.userSpecs.value.platform)
  {
    if story.userSpecs.Some? {
      assert "platform" in Metadata(story.userSpecs);
    }
  }

  /** The remote half of the report: the new row's id on success, nothing on
      failure (the error is shown instead). */
  function RemoteReport(outcome: Result<string, string>): (r: seq<string>)
    ensures |r| <= 1
    ensures r != [] <==> outcome.Success?
  {
    match outcome
    case Success(id) => ["Supabase: ID " + id]
    case Failure(_) => []
  }

  /** `save_story`: the local files, then, when asked, the remote row.
      `outcome` is what the remote store answered. */
  function SaveStory(dir: Directory, base: string, story: Story, labels: seq<string>, times: seq<DateTime>,
                     remote: bool, outcome: Result<string, string>): (r: (Directory, seq<string>))
    requires |times| == |labels|
    requires forall i :: 0 <= i < |times| ==> Valid(times[i])
    ensures r.0 == SaveLocal(dir, base, story, labels, times).0
    ensures |r.1| == |Recognised(labels, times)| + (if remote && outcome.Success? then 1 else 0)
    ensures r.1[..|Recognised(labels, times)|] == SaveLocal(dir, base, story, labels, times).1
    ensures remote && outcome.Success? ==> r.1[|r.1| - 1] == "Supabase: ID " + outcome.value
  {
    var local := SaveLocal(dir, base, story, labels, times);
    (local.0, local.1 + (if remote then RemoteReport(outcome) else []))
  }

  // ---------------------------------------------------------------------------
  // Remote rows shown as local records
  // ---------------------------------------------------------------------------

  /** A row of the remote `stories` table; absent columns are `None`. */
  datatype Row = Row(
    id: Option<string>, title: Option<string>, content: Option<Content>, tone: Option<string>,
    metadata: Option<map<string, string>>, createdAt: Option<string>)

  const NotAvailable := "N/A"

  /** The conversion in `display_remote_stories`. */
  function RowToLocal(row: Row): (s: Story)
    ensures s.content.Some? && s.platform.Some? && s.tone.Some? && s.createdAt.Some?
    ensures s.id == row.id
    ensures s.imagePath.None? && s.userSpecs.None? && s.filename.None? && s.filepath.None?
  {
    var meta := row.metadata.GetOr(map[]);
    Story(
      Some(row.content.GetOr(EmptyContent)),
      Some(if "platform" in meta then meta["platform"] else NotAvailable),
      Some(row.tone.GetOr(NotAvailable)),
      None,
      Some(row.createdAt.GetOr("")),
      None,
      row.id,
      None,
      None)
  }

  /** The row the remote store keeps for a request, with the id and time it
      assigns. */
  function StoredRow(q: Request, id: string, createdAt: string): Row {
    Row(Some(id), Some(q.title), Some(q.content), Some(q.tone), Some(q.metadata), Some(createdAt))
  }

  /** A story saved remotely and shown again keeps its content and tone
      (or `profesional`), its platform when it had specs (`N/A` otherwise),
      and gains the id and time the store assigned. */
  lemma RemoteRoundTrip(userId: string, story: Story, id: string, createdAt: string)
    ensures var s := RowToLocal(StoredRow(RemoteRequest(userId, story), id, createdAt));
      && ContentOf(s) == ContentOf(story)
      && s.tone == Some(story.tone.GetOr(RemoteDefaultTone))
      && s.platform == Some(if story.userSpecs.Some? then story.userSpecs.value.platform else NotAvailable)
      && s.id == Some(id)
      && SortKey(s) == createdAt
  {
    RemoteRequestSpec(userId, story);
  }

  /** Missing columns show as `N/A` (platform and tone), `{}` (content) and
      the empty date. */
  lemma RowDefaults(row: Row)
    ensures row.content.None? ==> RowToLocal(row).content == Some(EmptyContent)
    ensures row.tone.None? ==> RowToLocal(row).tone == Some(NotAvailable)
    ensures row.metadata.None? ==> RowToLocal(row).platform == Some(NotAvailable)
    ensures row.createdAt.None? ==> RowToLocal(row).createdAt == Some("")
    ensures row.metadata.Some? && "platform" in row.metadata.value ==>
      RowToLocal(row).platform == Some(row.metadata.value["platform"])
  {
  }
}

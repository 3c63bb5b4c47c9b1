/** The story record as the program passes it around: a dictionary whose keys
    may be absent. Each `Option` field is one key; `None` means the key is not
    in the dictionary, so that `d.get(key, default)` becomes `GetOr(default)`. */
module Stories {
  import opened Wrappers

  /** The `content` dictionary the platform agent produces. */
  datatype Content = Content(
    title: Option<string>,
    hook: Option<string>,
    body: Option<seq<string>>,
    callToAction: Option<string>,
    hashtags: Option<seq<string>>,
    fullText: Option<string>)

  /** `{}`: the value `story_data.get('content', {})` falls back to. */
  const EmptyContent := Content(None, None, None, None, None, None)

  /** The `user_specs` dictionary built from the form. */
  datatype UserSpecs = UserSpecs(platform: string, tone: string, additionalSpecs: string)

  /** A story record: produced by the orchestrator, written to and read back
      from the archive, or converted from a remote row. */
  datatype Story = Story(
    content: Option<Content>,
    platform: Option<string>,
    tone: Option<string>,
    imagePath: Option<string>,
    createdAt: Option<string>,
    userSpecs: Option<UserSpecs>,
    id: Option<string>,
    filename: Option<string>,
    filepath: Option<string>)

  /** `story_data.get('content', {})`. */
  function ContentOf(s: Story): Content {
    s.content.GetOr(EmptyContent)
  }

  // Defaults shared by several writers.
  const UntitledTitle := "Historia Sin Título"
  const UnspecifiedTone := "No especificado"
}

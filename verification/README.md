# Story archive and orchestrator rules of StreamlitCrewAi, in Dafny

StreamlitCrewAi turns an image into a social-media story: a crew of language
model agents writes the text, a Streamlit page shows it, and the story can be
saved locally (JSON, Markdown, HTML, PDF) and in a remote Supabase table.
This project models the deterministic part of that program:

- `FileManager` (`utils/file_manager.py`): the default file names of the
  savers (`historia_<YYYYmmdd_HHMMSS>.<ext>` under the base folder), the
  Markdown and HTML documents written for a story, and the loader that reads
  the `.json` files of the folder back, tags them with `filename` and
  `filepath`, skips those that fail to load and sorts the rest newest first.
- `StoryCrew` (`crew/story_crew.py`): the `user_specs` built from the form,
  the choice of content agent from the platform, the record built from the
  crew's output (with its fallback when the output is not JSON), the format
  loop and the remote request of `save_story`, and the conversion of a
  remote row into a local record.

A story record is a Python dictionary whose keys may be absent; here it is a
datatype whose `Option` fields are those keys (`None` = absent), so that
`d.get(key, default)` reads `GetOr(default)`. The clock is a `DateTime`
parameter; the directory is a map from entry names to what `json.load` makes
of each file (`None` when it raises), and the order of `os.listdir` is a
separate sequence of names. The crew run and the remote store are
parameters too: the crew's text with its decoded object (if any), and the
store's answer.

Modules, one file each: `Wrappers` (`Option`, `Result`), `Text` (ASCII
lower-casing, Python's string order, small parsing steps), `Clock` (the three
date formats), `Stories` (the record), `FileNaming`, `MarkdownExport`,
`HtmlExport`, `Archive`, `Orchestrator`.

The program writes Markdown and HTML documents but never reads them back.
Both writers paste field values in without escaping. To state what a written
document encodes, each export module defines a `Parse` function of its own for
that template; it is not part of the program. Each module also proves that
`Parse` gives every section back (defaults applied) whenever the field values
cannot be mistaken for template text; `MarkdownExport.BlankLineSplitsParagraph`
shows the ambiguity when they can.

## Model

| member | source | states |
|---|---|---|
| `Text.ToLowerSpec` | crew/story_crew.py:98 | lower-casing leaves no upper-case letter, changes nothing else, and is idempotent |
| `Clock.StampShape` | utils/file_manager.py:20 | the file-name stamp is eight digits, `_`, six digits |
| `Clock.StampSameSecond` | utils/file_manager.py:19-21 | two clock readings give the same stamp exactly when they fall in the same second |
| `Clock.IsoOrder` | crew/story_crew.py:165 | an earlier clock reading gives a smaller `isoformat()` string in Python's string order |
| `Clock.DisplayShape` | utils/file_manager.py:43 | the date printed in the documents is 16 characters with no line break and no `<` |
| `FileNaming.DefaultNameShape` | utils/file_manager.py:32-34 | the default name is `historia_`, the stamp and the extension, with no `/` in it |
| `FileNaming.DefaultNameCollision` | utils/file_manager.py:73-75 | two default names are equal exactly when the format and the second are the same |
| `FileNaming.BasenameOfJoin` | utils/file_manager.py:23 | a name without `/` joined under a folder is the last component of the path |
| `FileNaming.SavePathSpec` | utils/file_manager.py:17-23 | with no name or an empty one the saver writes `historia_<stamp><ext>` under the folder, otherwise the given name |
| `MarkdownExport.ParagraphsRoundTrip` | utils/file_manager.py:53-54 | the body paragraphs are read back in order and in number |
| `MarkdownExport.RoundTrip` | utils/file_manager.py:38-64 | reading the Markdown document back gives title (or `Historia Sin Título`), tone (or `No especificado`), date, hook, body, call to action and full text (or empty) |
| `MarkdownExport.BlankLineSplitsParagraph` | utils/file_manager.py:53-54 | without escaping, a paragraph holding a blank line writes the same text as the two paragraphs around it |
| `HtmlExport.ParagraphsRoundTrip` | utils/file_manager.py:164-165 | one `body-paragraph` block per paragraph, read back in order and in number |
| `HtmlExport.MainRoundTrip` | utils/file_manager.py:150-180 | the meta line and the four sections are read back, and nothing but the paragraph blocks stands between the Contenido heading and the closing `</div>` |
| `HtmlExport.RoundTrip` | utils/file_manager.py:79-180 | reading the HTML document back gives every section with its default |
| `HtmlExport.TitleDefaultsDiffer` | utils/file_manager.py:86-149 | for any story whose stored title holds no `<`, whatever its other fields, the title is read back as both `<title>` and `<h1>`; without one the tab reads `Historia` but the heading `Historia Sin Título`; the full reading agrees when it applies |
| `Archive.Collect` | utils/file_manager.py:253-261 | the loop keeps at most one record per `.json` name |
| `Archive.CollectSound` | utils/file_manager.py:253-261 | every record kept comes from a listed `.json` entry that loads, tagged with its name and its joined path |
| `Archive.CollectComplete` | utils/file_manager.py:253-261 | every listed `.json` entry that loads is kept |
| `Archive.CollectAllLoad` | utils/file_manager.py:256-263 | when no `.json` entry fails to load, one record is kept per `.json` name |
| `Archive.CollectAppend` | utils/file_manager.py:253 | the loop visits the listing in order |
| `Archive.SortDescSpec` | utils/file_manager.py:265 | the sort keeps the same records, newest `created_at` first, equal keys in the order they came |
| `Archive.ScanNewestFirst` | utils/file_manager.py:265 | among records stamped with `isoformat()`, none is listed before one created later |
| `Archive.ScanSpec` | utils/file_manager.py:246-265 | an absent folder gives `[]`; otherwise exactly the tagged loadable `.json` records, sorted descending and stable |
| `Archive.SaveThenScan` | utils/file_manager.py:17-28 | a record saved under a new `.json` name appears in the next scan once, tagged with that name and the returned path |
| `Archive.OtherFilesIgnored` | utils/file_manager.py:253-254 | a file not ending in `.json` never changes what the loader returns |
| `Archive.ExportNamesNotJson` | utils/file_manager.py:189-191 | default Markdown, HTML and PDF names never end in `.json` |
| `Orchestrator.MakeUserSpecs` | crew/story_crew.py:96-100 | platform and extra text are kept, the tone is lower-cased character by character |
| `Orchestrator.UserSpecsStable` | crew/story_crew.py:78-100 | rebuilding the specs from themselves changes nothing; the form's `Profesional` becomes `profesional` |
| `Orchestrator.DispatchSpec` | crew/story_crew.py:130-142 | `facebook`, `linkedin`, `instagram` (any case) pick their agent; every other platform picks Twitter |
| `Orchestrator.DispatchLabels` | crew/story_crew.py:71-75 | the four platforms of the form reach the four agents |
| `Orchestrator.ShapeResult` | crew/story_crew.py:156-180 | the record copies platform, tone, image path and specs, and stamps `created_at` with the ISO time |
| `Orchestrator.ShapeResultSpec` | crew/story_crew.py:156-180 | decoded output is the content; otherwise the content is only `Historia Generada` and the raw text; nothing else depends on decoding |
| `Orchestrator.FallbackExport` | crew/story_crew.py:168-180 | an undecodable result exports to Markdown with that title, empty sections and the raw text |
| `Orchestrator.LabelRoundTrip` | crew/story_crew.py:262-274 | exactly the labels `JSON`, `Markdown`, `HTML`, `PDF` are recognised, each as its own format |
| `Orchestrator.SaveLocal` | crew/story_crew.py:262-274 | one report line per recognised label |
| `Orchestrator.SaveLocalReports` | crew/story_crew.py:262-274 | the report lists, in label order, each recognised label with the path its saver returned |
| `Orchestrator.UnrecognisedIgnored` | crew/story_crew.py:262-274 | unrecognised labels write nothing and report nothing |
| `Orchestrator.JsonSavesHoldStory` | crew/story_crew.py:262-265 | after the loop each `JSON` label's default file holds the story |
| `Orchestrator.RemoteRequest` | crew/story_crew.py:278-284 | the request carries the user id and the content (or `{}`) |
| `Orchestrator.RemoteRequestSpec` | crew/story_crew.py:277-284 | title, tone and metadata fall back to `Historia Sin Título`, `profesional` and `{}` exactly when absent |
| `Orchestrator.RemoteReport` | crew/story_crew.py:286-289 | a success adds one line, a failure none |
| `Orchestrator.SaveStory` | crew/story_crew.py:256-289 | the local lines come first, then `Supabase: ID <id>` on a remote success |
| `Orchestrator.RowToLocal` | crew/story_crew.py:350-356 | a remote row becomes a record with content, platform, tone and date always present and its id copied |
| `Orchestrator.RowDefaults` | crew/story_crew.py:350-356 | missing columns show as `N/A` (platform, tone), `{}` (content) and `''` (date) |
| `Orchestrator.RemoteRoundTrip` | crew/story_crew.py:350-356 | a story saved remotely and shown again keeps content, tone (or `profesional`) and platform (or `N/A`), and gains the store's id and date |

## Left out

- PDF generation (`save_as_pdf` body, utils/file_manager.py:195-244): the ReportLab layout is a foreign library; only its file name is modelled. It never writes the full text.
- Real file I/O, `json.dump`/`json.load`, `os.makedirs`, `os.listdir` and `os.path.exists`: the folder is a map, a listing and a flag.
- `datetime.now()`: every reading is a parameter. The savers read the clock once for the name and again for the printed date; the model takes them separately.
- The Streamlit UI (widgets, session state, messages, reruns), the display of stories and its `fromisoformat` date parsing.
- The CrewAI layer (agents, tasks, prompts, `kickoff`), the language model configuration, BLIP captioning, speech transcription, Instagram publishing and scheduling, the Supabase SDK, the `SaveStoryTool`, environment checks and start-up scripts.
- A saver that raises is not modelled; the model assumes each saver returns. In the source the success list is shown only after the loop, inside the same `try` (crew/story_crew.py:260-298). A raising saver therefore reports no line at all, even for files already written, and the remote save is skipped. A failing remote store does not raise: it returns a failure (utils/supabase_client.py:17-31), which `RemoteReport` and `SaveStory` model as `Failure`.
- Text.ToLower: lower-cases ASCII letters only, where Python's `str.lower` follows Unicode.
- Clock.Valid: does not check the day against the month's length.
- Clock.Stamp: pads years below 1000 to four digits; platform `strftime` implementations differ there.
- MarkdownExport.RoundTrip: holds only for stories whose single-line fields hold no line break and no paragraph equals the call-to-action heading; `BlankLineSplitsParagraph` shows why.
- HtmlExport.RoundTrip: holds only for stories whose inline fields hold no `<` and whose tone holds no line break.
- Archive.Load: the map holds decoded objects only. A file that decodes to a list or a scalar makes the tagging raise, so the source skips it as well; it is written `None` here. Values of other JSON types inside a record are not modelled.
- Archive.ScanSpec: `SortKey` is always a string, so a record whose `created_at` is `null`, a number or another non-string cannot be represented. In the source such a record loads and is kept. The sort at utils/file_manager.py:265 then raises `TypeError` as soon as it compares that key with a string key, or with another key it cannot be ordered against (two `null`s, say). The exception is outside the `try`, so the whole call fails and the loader returns nothing at all, not the other records.
- Orchestrator.ShapeResult: crew output that decodes to a JSON value other than an object is not modelled.
- Orchestrator.RowToLocal: a `None` column stands for both an absent key and a null value, and is read as absent. The rows come from `select("*")`, so in the source every column is a key and a null one holds `None`. `.get` then returns `None` rather than the default. A null `id` gives the same `None`. A null `created_at` stays `None`, which the display treats like `''`. A null `tone`, `content` or `metadata` makes the display raise: `.title()` on `None` (crew/story_crew.py:371), `in` on `None` (crew/story_crew.py:382) or `.get` on `None` (crew/story_crew.py:352). The model shows `N/A`, `{}` and `N/A` for these instead. The defaults in `RowDefaults` are what the source gives for an absent key.
- Stories.Content: only the six keys the writers read are modelled (`title`, `hook`, `body`, `call_to_action`, `hashtags`, `full_text`). Other keys an agent may return are not represented, so the JSON-save and remote round trips say nothing about them. One example is the Twitter task's `main_tweet` and `thread` (crew/tasks.py:145-146).
- FileNaming.Join: a caller-given file name containing `/` is joined but not followed out of the folder.

/** Where the four `FileManager.save_as_*` methods write: the file name they
    derive when none is given and the path they return. */
module FileNaming {
  import opened Wrappers
  import opened Text
  import opened Clock

  datatype Format = Json | Markdown | Html | Pdf

  function Extension(f: Format): string {
    match f
    case Json => ".json"
    case Markdown => ".md"
    case Html => ".html"
    case Pdf => ".pdf"
  }

  const Prefix := "historia_"

  /** `f"historia_{timestamp}.<ext>"` with the `%Y%m%d_%H%M%S` timestamp. */
  function DefaultName(now: DateTime, f: Format): string
    requires Valid(now)
  {
    Prefix + Stamp(now) + Extension(f)
  }

  /** `if not filename:` treats an absent name and the empty name alike. */
  function ResolveName(filename: Option<string>, now: DateTime, f: Format): string
    requires Valid(now)
  {
    if filename.None? || filename.value == "" then DefaultName(now, f) else filename.value
  }

  /** `os.path.join(base, name)` on POSIX: an absolute name replaces the base,
      and a separator is added only when the base does not already end in one. */
  function Join(base: string, name: string): string {
    if |name| > 0 && name[0] == '/' then name
    else if base == "" || base[|base| - 1] == '/' then base + name
    else base + "/" + name
  }

  /** The path a `save_as_*` call returns (and writes to). */
  function SavePath(base: string, filename: Option<string>, now: DateTime, f: Format): string
    requires Valid(now)
  {
    Join(base, ResolveName(filename, now, f))
  }

  /** `os.path.basename`: what follows the last `/`. */
  function Basename(path: string): string
    decreases |path|
  {
    if |path| == 0 then ""
    else if path[|path| - 1] == '/' then ""
    else Basename(path[..|path| - 1]) + [path[|path| - 1]]
  }

  /** The default name is the prefix, the fifteen-character stamp and the
      extension, and it has no directory part. */
  lemma DefaultNameShape(now: DateTime, f: Format)
    requires Valid(now)
    ensures |DefaultName(now, f)| == 24 + |Extension(f)|
    ensures DefaultName(now, f)[..9] == "historia_"
    ensures DefaultName(now, f)[9..24] == Stamp(now)
    ensures EndsWith(DefaultName(now, f), Extension(f))
    ensures '/' !in DefaultName(now, f)
  {
    StampShape(now);
    var n := DefaultName(now, f);
    assert n == Prefix + Stamp(now) + Extension(f);
    assert forall i :: 9 <= i < 24 ==> n[i] == Stamp(now)[i - 9];
    assert forall i :: 24 <= i < |n| ==> n[i] == Extension(f)[i - 24];
  }

  lemma ExtensionInjective(f: Format, g: Format)
    requires Extension(f) == Extension(g)
    ensures f == g
  {
    assert |Extension(f)| == |Extension(g)|;
    if |Extension(f)| == 5 {
      assert Extension(f)[1] == Extension(g)[1];
    }
  }

  /** Two saves pick the same default name exactly when they write the same
      format within the same second; the name carries no other uniqueness. */
  lemma DefaultNameCollision(a: DateTime, b: DateTime, f: Format, g: Format)
    requires Valid(a) && Valid(b)
    ensures DefaultName(a, f) == DefaultName(b, g) <==> ToSecond(a) == ToSecond(b) && f == g
  {
    DefaultNameShape(a, f);
    DefaultNameShape(b, g);
    StampSameSecond(a, b);
    if DefaultName(a, f) == DefaultName(b, g) {
      var n := DefaultName(a, f);
      assert Extension(f) == n[24..] == Extension(g);
      ExtensionInjective(f, g);
    }
  }

  /** Joining a plain name onto a directory: the name is what the path ends
      with, after a single separator. */
  lemma {:induction false} BasenameOfJoin(base: string, name: string)
    requires '/' !in name
    ensures Basename(Join(base, name)) == name
    decreases |name|
  {
    if |name| > 0 {
      var last := name[|name| - 1];
      var init := name[..|name| - 1];
      assert name == init + [last];
      assert '/' !in init by {
        assert forall c :: c in init ==> c in name;
      }
      assert Join(base, name) == Join(base, init) + [last];
      BasenameOfJoin(base, init);
    } else {
      var p := Join(base, name);
      assert p == base || p == base + "/";
      if p == base + "/" {
      } else {
        assert base == "" || base[|base| - 1] == '/';
      }
    }
  }

  /** With no name (or an empty one) a save writes `historia_<stamp>.<ext>`
      inside `base`; with a name it writes that name inside `base`. */
  lemma SavePathSpec(base: string, filename: Option<string>, now: DateTime, f: Format)
    requires Valid(now)
    ensures filename.None? || filename == Some("") ==>
      SavePath(base, filename, now, f) == Join(base, "historia_" + Stamp(now) + Extension(f))
    ensures filename.None? || filename == Some("") ==>
      Basename(SavePath(base, filename, now, f)) == DefaultName(now, f)
    ensures filename.Some? && filename.value != "" ==>
      SavePath(base, filename, now, f) == Join(base, filename.value)
    ensures base != "" && base[|base| - 1] != '/' && (filename.None? || filename == Some("")) ==>
      SavePath(base, filename, now, f) == base + "/" + DefaultName(now, f)
  {
    DefaultNameShape(now, f);
    BasenameOfJoin(base, DefaultName(now, f));
  }
}

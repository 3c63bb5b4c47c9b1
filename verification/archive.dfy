/** `FileManager.load_stories_from_folder`: the local archive as the program
    sees it when it reads it back.

    The directory is a map from entry names to what `json.load` makes of the
    file: `Some(story)` for a record, `None` when opening or decoding raises.
    A name that is listed but missing from the map also fails to open. The
    order `os.listdir` returns is a separate sequence of names. */
module Archive {
  import opened Wrappers
  import opened Text
  import opened Stories
  import opened Clock
  import opened FileNaming

  type Directory = map<string, Option<Story>>

  predicate IsJsonName(name: string) {
    EndsWith(name, ".json")
  }

  /** What reading the entry `name` yields; `None` when it raises. */
  function Load(dir: Directory, name: string): Option<Story> {
    if name in dir then dir[name] else None
  }

  /** The two keys the loader adds to every record it keeps. */
  function Tag(s: Story, name: string, path: string): Story {
    s.(filename := Some(name), filepath := Some(path))
  }

  /** The record kept for one listed name, tagged: nothing for a name that
      does not end in `.json` or that fails to load. */
  function Entry(base: string, dir: Directory, name: string): seq<Story> {
    if IsJsonName(name) && Load(dir, name).Some? then
      [Tag(Load(dir, name).value, name, Join(base, name))]
    else []
  }

  /** A record the loader may return: it names an entry of the listing that
      ends in `.json` and loads, and it is that entry's record tagged with
      the entry's name and its path under `base`. */
  predicate Found(base: string, dir: Directory, listing: seq<string>, s: Story) {
    && s.filename.Some?
    && var name := s.filename.value;
    && name in listing
    && IsJsonName(name)
    && Load(dir, name).Some?
    && s == Tag(Load(dir, name).value, name, Join(base, name))
  }

  /** The names of the listing that end in `.json`, in listing order. */
  function JsonNames(listing: seq<string>): (r: seq<string>)
    ensures |r| <= |listing|
    ensures forall i :: 0 <= i < |r| ==> IsJsonName(r[i]) && r[i] in listing
  {
    if |listing| == 0 then []
    else (if IsJsonName(listing[0]) then [listing[0]] else []) + JsonNames(listing[1..])
  }

  /** The loop over the listing, before sorting: at most one record per
      `.json` name. */
  function Collect(base: string, dir: Directory, listing: seq<string>): (r: seq<Story>)
    ensures |r| <= |JsonNames(listing)|
  {
    if |listing| == 0 then []
    else Entry(base, dir, listing[0]) + Collect(base, dir, listing[1..])
  }

  // ---------------------------------------------------------------------------
  // `sorted(stories, key=lambda x: x.get('created_at', ''), reverse=True)`
  // ---------------------------------------------------------------------------

  function SortKey(s: Story): string {
    s.createdAt.GetOr("")
  }

  /** Newest first: no record is followed by one with a greater key. */
  predicate Descending(s: seq<Story>) {
    forall i, j :: 0 <= i < j < |s| ==> AtLeast(SortKey(s[i]), SortKey(s[j]))
  }

  /** Every key in `s` is at most `k`. */
  predicate KeysAtMost(k: string, s: seq<Story>) {
    forall i :: 0 <= i < |s| ==> AtLeast(k, SortKey(s[i]))
  }

  /** The records whose key is `k`, in their order in `s`. */
  function WithKey(s: seq<Story>, k: string): seq<Story> {
    if |s| == 0 then []
    else (if SortKey(s[0]) == k then [s[0]] else []) + WithKey(s[1..], k)
  }

  /** Places `x` after every record whose key is not smaller than its own. */
  function Insert(x: Story, s: seq<Story>): seq<Story> {
    if |s| == 0 then [x]
    else if Less(SortKey(s[0]), SortKey(x)) then [x] + s
    else [s[0]] + Insert(x, s[1..])
  }

  /** A stable sort on descending key: records with equal keys keep the
      order they had, as `sorted(..., reverse=True)` promises. */
  function SortDesc(s: seq<Story>): seq<Story> {
    if |s| == 0 then [] else Insert(s[|s| - 1], SortDesc(s[..|s| - 1]))
  }

  /** The whole loader. `present` is `os.path.exists(base_path)`. */
  function Scan(present: bool, base: string, dir: Directory, listing: seq<string>): seq<Story> {
    if !present then [] else SortDesc(Collect(base, dir, listing))
  }

  // ---------------------------------------------------------------------------
  // The loop
  // ---------------------------------------------------------------------------

  lemma {:induction false} JsonNamesAppend(a: seq<string>, b: seq<string>)
    ensures JsonNames(a + b) == JsonNames(a) + JsonNames(b)
    decreases |a|
  {
    if |a| == 0 {
      assert a + b == b;
    } else {
      assert (a + b)[1..] == a[1..] + b;
      JsonNamesAppend(a[1..], b);
    }
  }

  /** The loop visits the listing in order: the records of a listing split in
      two are those of the first part followed by those of the second. */
  lemma {:induction false} CollectAppend(base: string, dir: Directory, a: seq<string>, b: seq<string>)
    ensures Collect(base, dir, a + b) == Collect(base, dir, a) + Collect(base, dir, b)
    decreases |a|
  {
    if |a| == 0 {
      assert a + b == b;
    } else {
      assert (a + b)[1..] == a[1..] + b;
      CollectAppend(base, dir, a[1..], b);
    }
  }

  /** Every record returned is `Found`. */
  lemma {:induction false} CollectSound(base: string, dir: Directory, listing: seq<string>)
    ensures forall i :: 0 <= i < |Collect(base, dir, listing)| ==> Found(base, dir, listing, Collect(base, dir, listing)[i])
    decreases |listing|
  {
    if |listing| > 0 {
      CollectSound(base, dir, listing[1..]);
      var e := Entry(base, dir, listing[0]);
      var rest := Collect(base, dir, listing[1..]);
      forall i | 0 <= i < |e + rest|
        ensures Found(base, dir, listing, (e + rest)[i])
      {
        if i >= |e| {
          assert (e + rest)[i] == rest[i - |e|];
          assert Found(base, dir, listing[1..], rest[i - |e|]);
          var name := rest[i - |e|].filename.value;
          assert name in listing[1..];
        }
      }
    }
  }

  /** Every listed `.json` entry that loads is returned, tagged. */
  lemma {:induction false} CollectComplete(base: string, dir: Directory, listing: seq<string>, name: string)
    requires name in listing && IsJsonName(name) && Load(dir, name).Some?
    ensures Tag(Load(dir, name).value, name, Join(base, name)) in Collect(base, dir, listing)
    decreases |listing|
  {
    if listing[0] != name {
      assert name in listing[1..];
      CollectComplete(base, dir, listing[1..], name);
    }
  }

  /** When every `.json` entry loads, nothing is skipped. */
  lemma {:induction false} CollectAllLoad(base: string, dir: Directory, listing: seq<string>)
    requires forall i :: 0 <= i < |listing| && IsJsonName(listing[i]) ==> Load(dir, listing[i]).Some?
    ensures |Collect(base, dir, listing)| == |JsonNames(listing)|
    decreases |listing|
  {
    if |listing| > 0 {
      assert forall i :: 0 <= i < |listing| - 1 ==> listing[1..][i] == listing[i + 1];
      CollectAllLoad(base, dir, listing[1..]);
    }
  }

  /** Entries that are not listed do not matter. */
  lemma {:induction false} CollectFrame(base: string, dir: Directory, listing: seq<string>, name: string, v: Option<Story>)
    requires name !in listing
    ensures Collect(base, dir[name := v], listing) == Collect(base, dir, listing)
    decreases |listing|
  {
    if |listing| > 0 {
      assert name !in listing[1..];
      CollectFrame(base, dir, listing[1..], name, v);
    }
  }

  // ---------------------------------------------------------------------------
  // The sort
  // ---------------------------------------------------------------------------

  lemma {:induction false} WithKeyAppend(a: seq<Story>, b: seq<Story>, k: string)
    ensures WithKey(a + b, k) == WithKey(a, k) + WithKey(b, k)
    decreases |a|
  {
    if |a| == 0 {
      assert a + b == b;
    } else {
      assert (a + b)[1..] == a[1..] + b;
      WithKeyAppend(a[1..], b, k);
    }
  }

  lemma {:induction false} WithKeyAbsent(s: seq<Story>, k: string)
    requires forall i :: 0 <= i < |s| ==> SortKey(s[i]) != k
    ensures WithKey(s, k) == []
    decreases |s|
  {
    if |s| > 0 {
      WithKeyAbsent(s[1..], k);
    }
  }

  lemma DescendingCons(x: Story, s: seq<Story>)
    requires KeysAtMost(SortKey(x), s) && Descending(s)
    ensures Descending([x] + s)
  {
    var t := [x] + s;
    forall i, j | 0 <= i < j < |t|
      ensures AtLeast(SortKey(t[i]), SortKey(t[j]))
    {
      if i > 0 {
        assert t[i] == s[i - 1] && t[j] == s[j - 1];
      } else {
        assert t[j] == s[j - 1];
      }
    }
  }

  lemma {:induction false} InsertMultiset(x: Story, s: seq<Story>)
    ensures multiset(Insert(x, s)) == multiset(s) + multiset{x}
    decreases |s|
  {
    if |s| > 0 && !Less(SortKey(s[0]), SortKey(x)) {
      InsertMultiset(x, s[1..]);
      assert s == [s[0]] + s[1..];
    }
  }

  /** An upper bound on every key survives inserting a record below it. */
  lemma {:induction false} InsertKeysAtMost(k: string, x: Story, s: seq<Story>)
    requires KeysAtMost(k, s) && AtLeast(k, SortKey(x))
    ensures KeysAtMost(k, Insert(x, s))
    decreases |s|
  {
    if |s| > 0 && !Less(SortKey(s[0]), SortKey(x)) {
      InsertKeysAtMost(k, x, s[1..]);
      var t := Insert(x, s[1..]);
      assert forall i :: 0 < i < |t| + 1 ==> ([s[0]] + t)[i] == t[i - 1];
    }
  }

  /** A record whose key exceeds the first key of a descending sequence
      exceeds them all. */
  lemma AboveDescending(x: Story, s: seq<Story>)
    requires Descending(s) && |s| > 0 && Less(SortKey(s[0]), SortKey(x))
    ensures KeysAtMost(SortKey(x), s)
    ensures forall i :: 0 <= i < |s| ==> Less(SortKey(s[i]), SortKey(x))
  {
    forall i | 0 <= i < |s|
      ensures Less(SortKey(s[i]), SortKey(x))
    {
      if i > 0 && SortKey(s[i]) != SortKey(s[0]) {
        LessTotal(SortKey(s[i]), SortKey(s[0]));
        LessTransitive(SortKey(s[i]), SortKey(s[0]), SortKey(x));
      }
    }
    forall i | 0 <= i < |s|
      ensures AtLeast(SortKey(x), SortKey(s[i]))
    {
      LessAsymmetric(SortKey(s[i]), SortKey(x));
    }
  }

  lemma {:induction false} InsertDescending(x: Story, s: seq<Story>)
    requires Descending(s)
    ensures Descending(Insert(x, s))
    decreases |s|
  {
    if |s| == 0 {
    } else if Less(SortKey(s[0]), SortKey(x)) {
      AboveDescending(x, s);
      DescendingCons(x, s);
    } else {
      assert Descending(s[1..]) by {
        forall i, j | 0 <= i < j < |s| - 1
          ensures AtLeast(SortKey(s[1..][i]), SortKey(s[1..][j]))
        {
          assert s[1..][i] == s[i + 1] && s[1..][j] == s[j + 1];
        }
      }
      assert KeysAtMost(SortKey(s[0]), s[1..]) by {
        forall i | 0 <= i < |s| - 1
          ensures AtLeast(SortKey(s[0]), SortKey(s[1..][i]))
        {
          assert s[1..][i] == s[i + 1];
        }
      }
      InsertDescending(x, s[1..]);
      InsertKeysAtMost(SortKey(s[0]), x, s[1..]);
      DescendingCons(s[0], Insert(x, s[1..]));
    }
  }

  /** Inserting `x` puts it after every record with its own key. */
  lemma {:induction false} InsertWithKey(x: Story, s: seq<Story>, k: string)
    requires Descending(s)
    ensures WithKey(Insert(x, s), k) == WithKey(s, k) + WithKey([x], k)
    decreases |s|
  {
    assert [x][1..] == [];
    if |s| == 0 {
    } else if Less(SortKey(s[0]), SortKey(x)) {
      AboveDescending(x, s);
      assert ([x] + s)[1..] == s;
      if SortKey(x) == k {
        forall i | 0 <= i < |s|
          ensures SortKey(s[i]) != k
        {
          LessIrreflexive(k);
        }
        WithKeyAbsent(s, k);
      }
    } else {
      assert Descending(s[1..]) by {
        forall i, j | 0 <= i < j < |s| - 1
          ensures AtLeast(SortKey(s[1..][i]), SortKey(s[1..][j]))
        {
          assert s[1..][i] == s[i + 1] && s[1..][j] == s[j + 1];
        }
      }
      InsertWithKey(x, s[1..], k);
      assert ([s[0]] + Insert(x, s[1..]))[1..] == Insert(x, s[1..]);
    }
  }

  /** The sort returns the same records, newest first, and records with
      equal keys in the order they came in. */
  lemma {:induction false} SortDescSpec(s: seq<Story>)
    ensures multiset(SortDesc(s)) == multiset(s)
    ensures Descending(SortDesc(s))
    ensures forall k :: WithKey(SortDesc(s), k) == WithKey(s, k)
    decreases |s|
  {
    if |s| > 0 {
      var init := s[..|s| - 1];
      var x := s[|s| - 1];
      assert s == init + [x];
      SortDescSpec(init);
      InsertMultiset(x, SortDesc(init));
      InsertDescending(x, SortDesc(init));
      forall k
        ensures WithKey(SortDesc(s), k) == WithKey(s, k)
      {
        InsertWithKey(x, SortDesc(init), k);
        WithKeyAppend(init, [x], k);
      }
    }
  }

  // ---------------------------------------------------------------------------
  // The loader
  // ---------------------------------------------------------------------------

  /** What the loader returns: nothing when the folder is absent; otherwise
      exactly the tagged records of the listed `.json` entries that load, at
      most one per `.json` name, newest first, equal keys in listing order. */
  lemma ScanSpec(present: bool, base: string, dir: Directory, listing: seq<string>)
    ensures !present ==> Scan(present, base, dir, listing) == []
    ensures present ==> multiset(Scan(present, base, dir, listing)) == multiset(Collect(base, dir, listing))
    ensures forall i :: 0 <= i < |Scan(present, base, dir, listing)| ==>
      Found(base, dir, listing, Scan(present, base, dir, listing)[i])
    ensures present ==> forall name :: name in listing && IsJsonName(name) && Load(dir, name).Some? ==>
      Tag(Load(dir, name).value, name, Join(base, name)) in Scan(present, base, dir, listing)
    ensures |Scan(present, base, dir, listing)| <= |JsonNames(listing)|
    ensures Descending(Scan(present, base, dir, listing))
    ensures present ==> forall k :: WithKey(Scan(present, base, dir, listing), k) == WithKey(Collect(base, dir, listing), k)
  {
    if present {
      var c := Collect(base, dir, listing);
      SortDescSpec(c);
      var r := SortDesc(c);
      CollectSound(base, dir, listing);
      assert |r| == |multiset(r)| == |multiset(c)| == |c|;
      forall i | 0 <= i < |r|
        ensures Found(base, dir, listing, r[i])
      {
        assert r[i] in multiset(c);
      }
      forall name | name in listing && IsJsonName(name) && Load(dir, name).Some?
        ensures Tag(Load(dir, name).value, name, Join(base, name)) in r
      {
        CollectComplete(base, dir, listing, name);
        assert Tag(Load(dir, name).value, name, Join(base, name)) in multiset(c);
      }
    }
  }

  /** For records stamped with `isoformat()`, as the orchestrator stamps
      them, the loader lists no record before one created later. */
  lemma ScanNewestFirst(present: bool, base: string, dir: Directory, listing: seq<string>,
                        i: int, j: int, a: DateTime, b: DateTime)
    requires Valid(a) && Valid(b)
    requires 0 <= i < j < |Scan(present, base, dir, listing)|
    requires Scan(present, base, dir, listing)[i].createdAt == Some(Iso(a))
    requires Scan(present, base, dir, listing)[j].createdAt == Some(Iso(b))
    ensures !Earlier(a, b)
  {
    ScanSpec(present, base, dir, listing);
    if Earlier(a, b) {
      IsoOrder(a, b);
    }
  }

  // ---------------------------------------------------------------------------
  // Saving, then scanning
  // ---------------------------------------------------------------------------

  /** `save_as_json`: the directory afterwards, where the record decodes back
      to what was dumped, and the path returned. */
  function SaveJson(dir: Directory, base: string, filename: Option<string>, now: DateTime, story: Story): (Directory, string)
    requires Valid(now)
  {
    var name := ResolveName(filename, now, Json);
    (dir[name := Some(story)], SavePath(base, filename, now, Json))
  }

  /** Adding one listed entry adds exactly its own record, in its place. */
  lemma CollectInsert(base: string, dir: Directory, before: seq<string>, name: string, after: seq<string>, v: Option<Story>)
    requires name !in before + after
    ensures Collect(base, dir[name := v], before + [name] + after)
      == Collect(base, dir, before) + Entry(base, dir[name := v], name) + Collect(base, dir, after)
    ensures Collect(base, dir, before + after) == Collect(base, dir, before) + Collect(base, dir, after)
  {
    var d := dir[name := v];
    assert name !in before && name !in after;
    CollectAppend(base, d, before + [name], after);
    CollectAppend(base, d, before, [name]);
    CollectAppend(base, dir, before, after);
    CollectFrame(base, dir, before, name, v);
    CollectFrame(base, dir, after, name, v);
    CollectSingle(base, d, name);
  }

  lemma CollectSingle(base: string, dir: Directory, name: string)
    ensures Collect(base, dir, [name]) == Entry(base, dir, name)
  {
    assert [name][1..] == [];
  }

  /** A record saved under a new name shows up in the next scan, tagged with
      that name and the path the save returned, when the name ends in
      `.json` (always so for the default name); nothing else changes. */
  lemma SaveThenScan(dir: Directory, base: string, filename: Option<string>, now: DateTime, story: Story,
                     before: seq<string>, after: seq<string>)
    requires Valid(now)
    requires ResolveName(filename, now, Json) !in before + after
    ensures
      var name := ResolveName(filename, now, Json);
      var saved := SaveJson(dir, base, filename, now, story);
      multiset(Scan(true, base, saved.0, before + [name] + after))
      == multiset(Scan(true, base, dir, before + after))
         + (if IsJsonName(name) then multiset{Tag(story, name, saved.1)} else multiset{})
    ensures filename.None? ==> IsJsonName(ResolveName(filename, now, Json))
  {
    var name := ResolveName(filename, now, Json);
    var d := dir[name := Some(story)];
    DefaultNameShape(now, Json);
    CollectInsert(base, dir, before, name, after, Some(story));
    var cb, ca := Collect(base, dir, before), Collect(base, dir, after);
    var e := Entry(base, d, name);
    assert e == if IsJsonName(name) then [Tag(story, name, SavePath(base, filename, now, Json))] else [];
    var grown := Collect(base, d, before + [name] + after);
    var old_ := Collect(base, dir, before + after);
    assert multiset(grown) == multiset(old_) + multiset(e);
    SortDescSpec(grown);
    SortDescSpec(old_);
  }

  /** A file whose name does not end in `.json` (a Markdown, HTML or PDF
      export) is never read back by the loader. */
  lemma OtherFilesIgnored(dir: Directory, base: string, name: string, v: Option<Story>,
                          before: seq<string>, after: seq<string>)
    requires !IsJsonName(name) && name !in before + after
    ensures Scan(true, base, dir[name := v], before + [name] + after) == Scan(true, base, dir, before + after)
  {
    CollectInsert(base, dir, before, name, after, v);
    var cb, ca := Collect(base, dir, before), Collect(base, dir, after);
    assert Entry(base, dir[name := v], name) == [];
    assert cb + [] + ca == cb + ca;
  }

  /** The default names of the other three formats never end in `.json`. */
  lemma ExportNamesNotJson(now: DateTime, f: Format)
    requires Valid(now) && f != Json
    ensures !IsJsonName(DefaultName(now, f))
  {
    var n := DefaultName(now, f);
    DefaultNameShape(now, f);
    assert n[|n| - 1] == Extension(f)[|Extension(f)| - 1];
  }
}

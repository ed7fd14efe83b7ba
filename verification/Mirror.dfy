/** The offline mirror of the server's markdown files: the manifest, the reconcile
    plan (`src/fs_mirror.rs`) and a whole sync run (`src/fs_fetch.rs`). */
module Mirror {
  import opened Text

  type Path = string
  /** Where a file lies: the path taken apart, so two spellings of one place agree. */
  type Place = seq<string>

  datatype Version = Version(size: nat, mtime: int)
  datatype Entry = Entry(path: Path, version: Version)
  type Files = map<Place, Version>

  // ---- paths ----

  function Parts(segs: seq<string>): Place {
    if segs == [] then []
    else
      var rest := Parts(segs[..|segs| - 1]);
      var last := segs[|segs| - 1];
      if last == "" || last == "." then rest else rest + [last]
  }

  function PlaceOf(path: Path): Place { Parts(Split(path, '/')) }

  /** `safe_rel`: neither empty, absolute, nor climbing out. */
  predicate Safe(path: Path) {
    path != "" && path[0] != '/' && ".." !in PlaceOf(path) && PlaceOf(path) != []
  }

  /** Spelled the one way a directory walk spells it. */
  predicate Plain(path: Path) { path == Join(PlaceOf(path), "/") }

  lemma PlainPlaces(p: Path, q: Path)
    requires Plain(p) && Plain(q)
    ensures PlaceOf(p) == PlaceOf(q) <==> p == q
  {
  }

  // ---- which paths are safe, by their text ----

  /** From `i` to `j` the part stands, between slashes or between one and an end. */
  predicate StretchAt(p: Path, part: string, i: nat, j: nat) {
    && i <= j <= |p| && p[i..j] == part && '/' !in part
    && (i == 0 || p[i - 1] == '/') && (j == |p| || p[j] == '/')
  }

  ghost predicate HasStretch(p: Path, part: string) { exists i: nat, j: nat :: StretchAt(p, part, i, j) }

  lemma StretchBehind(p: Path, part: string, at: nat, i: nat, j: nat)
    requires at < |p| && p[at] == '/'
    ensures StretchAt(p[at + 1..], part, i, j) <==> StretchAt(p, part, i + at + 1, j + at + 1)
  {
    var rest := p[at + 1..];
    if i <= j <= |rest| {
      assert rest[i..j] == p[i + at + 1..j + at + 1];
    }
  }

  lemma FirstStretch(p: Path, part: string, at: nat, i: nat, j: nat)
    requires at < |p| && p[at] == '/' && '/' !in p[..at] && StretchAt(p, part, i, j) && i <= at
    ensures i == 0 && j == at && part == p[..at]
  {
  }

  lemma StretchesOf(p: Path, part: string, at: nat)
    requires at < |p| && p[at] == '/' && '/' !in p[..at]
    ensures HasStretch(p, part) <==> part == p[..at] || HasStretch(p[at + 1..], part)
  {
    hide StretchAt;
    if part == p[..at] { FrontStretch(p, at); }
    if HasStretch(p[at + 1..], part) {
      var i: nat, j: nat :| StretchAt(p[at + 1..], part, i, j);
      StretchBehind(p, part, at, i, j);
    }
    if HasStretch(p, part) {
      var i: nat, j: nat :| StretchAt(p, part, i, j);
      if i <= at {
        FirstStretch(p, part, at, i, j);
      } else {
        StretchOrder(p, part, i, j);
        StretchBehind(p, part, at, i - at - 1, j - at - 1);
      }
    }
  }

  lemma FrontStretch(p: Path, at: nat)
    requires at < |p| && p[at] == '/' && '/' !in p[..at]
    ensures StretchAt(p, p[..at], 0, at)
  {
  }

  lemma StretchOrder(p: Path, part: string, i: nat, j: nat)
    requires StretchAt(p, part, i, j)
    ensures i <= j
  {
  }

  lemma OneStretch(p: Path, part: string)
    requires '/' !in p
    ensures HasStretch(p, part) <==> part == p
  {
    assert StretchAt(p, p, 0, |p|);
    forall i: nat, j: nat | StretchAt(p, part, i, j) ensures part == p { }
  }

  /** The parts of a split path are its stretches. */
  lemma {:induction false} SplitStretches(p: Path, part: string)
    ensures part in Split(p, '/') <==> HasStretch(p, part)
    decreases |p|
  {
    hide HasStretch;
    var at := Find(p, '/');
    if at == |p| {
      OneStretch(p, part);
    } else {
      SplitStretches(p[at + 1..], part);
      StretchesOf(p, part, at);
    }
  }

  lemma {:induction false} PartsKeep(segs: seq<string>, part: string)
    ensures part in Parts(segs) <==> part in segs && part != "" && part != "."
  {
    if segs != [] {
      var init, last := segs[..|segs| - 1], segs[|segs| - 1];
      PartsKeep(init, part);
      assert segs == init + [last];
    }
  }

  /** A path is safe if and only if it does not begin with a slash, no stretch of it is two
      dots, and some stretch names something. */
  lemma SafeIff(p: Path)
    ensures Safe(p)
       <==> (p != "" ==> p[0] != '/') && !HasStretch(p, "..")
            && exists part :: HasStretch(p, part) && part != "" && part != "."
  {
    hide Split, Parts, HasStretch;
    var segs := Split(p, '/');
    SplitStretches(p, "..");
    PartsKeep(segs, "..");
    if PlaceOf(p) != [] {
      var part := PlaceOf(p)[0];
      PartsKeep(segs, part);
      SplitStretches(p, part);
    }
    if part :| HasStretch(p, part) && part != "" && part != "." {
      SplitStretches(p, part);
      PartsKeep(segs, part);
    }
    EmptyPlace();
  }

  lemma EmptyPlace()
    ensures PlaceOf("") == []
  {
    assert Split("", '/') == [""];
    assert [""][..0] == [];
  }

  /** A name that a file or directory can have in a listing. */
  predicate Ordinary(name: string) { name != "" && name != "." && name != ".." && '/' !in name }

  lemma {:induction false} PartsOrdinary(names: seq<string>)
    requires forall i :: 0 <= i < |names| ==> Ordinary(names[i])
    ensures Parts(names) == names
  {
    if names != [] {
      PartsOrdinary(names[..|names| - 1]);
      assert Ordinary(names[|names| - 1]);
    }
  }

  /** Ordinary names joined by slashes are a safe path, spelled plainly, and it leads through
      exactly these names. */
  lemma JoinedIsSafe(names: seq<string>)
    requires names != [] && forall i :: 0 <= i < |names| ==> Ordinary(names[i])
    ensures var p := Join(names, "/"); Safe(p) && Plain(p) && PlaceOf(p) == names
  {
    hide Split, Join, Parts;
    SplitJoin(names, '/');
    PartsOrdinary(names);
    JoinStarts(names);
  }

  lemma JoinStarts(names: seq<string>)
    requires names != [] && names[0] != ""
    ensures Join(names, "/") != "" && Join(names, "/")[0] == names[0][0]
  {
  }

  /** Where a path leads: its stretches in order, without the empty ones and the single
      dots.  Two paths with a slash between lead where the first does and on from there. */
  lemma PlaceOfTwo(a: Path, b: Path)
    ensures PlaceOf(a + "/" + b) == PlaceOf(a) + PlaceOf(b)
    ensures '/' !in a ==> PlaceOf(a) == if a == "" || a == "." then [] else [a]
  {
    hide Split, Parts;
    SplitTwo(a, b);
    PartsTwo(Split(a, '/'), Split(b, '/'));
    if '/' !in a { OneSegment(a); }
  }

  lemma {:induction false} SplitTwo(a: string, b: string)
    ensures Split(a + "/" + b, '/') == Split(a, '/') + Split(b, '/')
    decreases |a|
  {
    var s, i := a + "/" + b, Find(a, '/');
    if i == |a| {
      FindIs(s, '/', |a|);
      assert s[..|a|] == a && s[|a| + 1..] == b;
    } else {
      FindIs(s, '/', i);
      assert s[..i] == a[..i] && s[i + 1..] == a[i + 1..] + "/" + b;
      SplitTwo(a[i + 1..], b);
      Regroup([a[..i]], Split(a[i + 1..], '/'), Split(b, '/'));
    }
  }

  lemma {:induction false} PartsTwo(a: seq<string>, b: seq<string>)
    ensures Parts(a + b) == Parts(a) + Parts(b)
    decreases |b|
  {
    if b == [] {
      assert a + b == a;
      assert Parts(a) + [] == Parts(a);
    } else {
      assert (a + b)[..|a + b| - 1] == a + b[..|b| - 1];
      PartsTwo(a, b[..|b| - 1]);
    }
  }

  lemma OneSegment(a: string)
    requires '/' !in a
    ensures PlaceOf(a) == if a == "" || a == "." then [] else [a]
  {
    FindIs(a, '/', |a|);
    assert Split(a, '/') == [a] && [a][..0] == [];
    assert Parts([a][..0]) == [];
  }

  function FileAt(files: Files, path: Path): Option<Version> {
    if PlaceOf(path) in files then Some(files[PlaceOf(path)]) else None
  }

  // ---- entry lists ----

  /** The first entry for a path. */
  function First(es: seq<Entry>, p: Path): (r: Option<Entry>)
    ensures r.Some? ==> r.value.path == p
  {
    if es == [] then None
    else
      var init, last := es[..|es| - 1], es[|es| - 1];
      var r := First(init, p);
      if r.Some? then r else if last.path == p then Some(last) else None
  }

  predicate Has(es: seq<Entry>, p: Path) { First(es, p).Some? }

  lemma {:induction false} HasIffListed(es: seq<Entry>, p: Path)
    ensures Has(es, p) <==> exists i :: 0 <= i < |es| && es[i].path == p
  {
    if es != [] {
      var init := es[..|es| - 1];
      HasIffListed(init, p);
      if Has(init, p) {
        var i :| 0 <= i < |init| && init[i].path == p;
        assert es[i].path == p;
      }
      if i :| 0 <= i < |es| && es[i].path == p {
        assert i < |init| ==> init[i].path == p;
      }
    }
  }

  lemma {:induction false} FirstConcat(a: seq<Entry>, b: seq<Entry>, p: Path)
    ensures First(a + b, p) == if Has(a, p) then First(a, p) else First(b, p)
    decreases |b|
  {
    if b == [] {
      assert a + b == a;
    } else {
      FirstConcat(a, b[..|b| - 1], p);
      assert (a + b)[..|a + b| - 1] == a + b[..|b| - 1];
    }
  }

  /** The position of the first entry. */
  lemma {:induction false} FirstAt(es: seq<Entry>, p: Path) returns (k: nat)
    requires Has(es, p)
    ensures k < |es| && es[k] == First(es, p).value
  {
    var init := es[..|es| - 1];
    if Has(init, p) {
      k := FirstAt(init, p);
    } else {
      k := |init|;
    }
  }

  /** No path is listed with two versions. */
  ghost predicate Consistent(es: seq<Entry>) {
    forall i, j :: 0 <= i < j < |es| && es[i].path == es[j].path ==> es[i].version == es[j].version
  }

  ghost predicate Distinct(es: seq<Entry>) {
    forall i, j :: 0 <= i < j < |es| ==> es[i].path != es[j].path
  }

  ghost predicate AllPlain(es: seq<Entry>) { forall p: Path :: Has(es, p) ==> Plain(p) }

  ghost predicate AllSafe(es: seq<Entry>) { forall p: Path :: Has(es, p) ==> Safe(p) }

  // ---- the manifest ----

  predicate Before(a: Path, b: Path) {
    b != [] && (a == [] || a[0] < b[0] || (a[0] == b[0] && Before(a[1..], b[1..])))
  }

  lemma {:induction false} BeforeTotal(a: Path, b: Path)
    ensures Before(a, b) || a == b || Before(b, a)
    ensures !(Before(a, b) && Before(b, a)) && !Before(a, a)
  {
    if a != [] {
      BeforeTotal(a[1..], a[1..]);
      if b != [] {
        BeforeTotal(a[1..], b[1..]);
        assert a == [a[0]] + a[1..] && b == [b[0]] + b[1..];
      }
    }
  }

  lemma {:induction false} BeforeTrans(a: Path, b: Path, c: Path)
    requires !Before(b, a) && Before(b, c)
    ensures Before(a, c)
  {
    if a != [] && b != [] {
      if a[0] == b[0] == c[0] {
        BeforeTrans(a[1..], b[1..], c[1..]);
      }
    }
  }

  function Insert(es: seq<Entry>, e: Entry): seq<Entry> {
    if es == [] || !Before(e.path, es[|es| - 1].path) then es + [e]
    else Insert(es[..|es| - 1], e) + [es[|es| - 1]]
  }

  /** A stable sort by path. */
  function Sort(es: seq<Entry>): seq<Entry> {
    if es == [] then [] else Insert(Sort(es[..|es| - 1]), es[|es| - 1])
  }

  function Dedup(es: seq<Entry>): (r: seq<Entry>)
    ensures es != [] ==> r != [] && r[|r| - 1].path == es[|es| - 1].path
  {
    if es == [] then []
    else
      var r := Dedup(es[..|es| - 1]);
      if r != [] && r[|r| - 1].path == es[|es| - 1].path then r else r + [es[|es| - 1]]
  }

  /** `Manifest::parse` on what `to_json` wrote. */
  function Parsed(stored: seq<Entry>): seq<Entry> { Dedup(Sort(stored)) }

  /** Never a step back from one entry to the next. */
  predicate Ascending(es: seq<Entry>, strictly: bool) {
    |es| > 1 ==>
      && Ascending(es[..|es| - 1], strictly)
      && !Before(es[|es| - 1].path, es[|es| - 2].path)
      && (strictly ==> es[|es| - 2].path != es[|es| - 1].path)
  }

  lemma {:induction false} InsertAscends(es: seq<Entry>, e: Entry)
    requires Ascending(es, false)
    ensures var r := Insert(es, e);
            && Ascending(r, false)
            && |r| == |es| + 1
            && (r[|es|] == e || (es != [] && r[|es|] == es[|es| - 1]))
  {
    if es == [] {
    } else if !Before(e.path, es[|es| - 1].path) {
      assert (es + [e])[..|es|] == es;
    } else {
      var init, last := es[..|es| - 1], es[|es| - 1];
      InsertAscends(init, e);
      var r := Insert(init, e);
      assert (r + [last])[..|r|] == r;
      BeforeTotal(e.path, last.path);
    }
  }

  lemma {:induction false} SortAscends(es: seq<Entry>)
    ensures Ascending(Sort(es), false)
  {
    if es != [] {
      SortAscends(es[..|es| - 1]);
      InsertAscends(Sort(es[..|es| - 1]), es[|es| - 1]);
    }
  }

  lemma {:induction false} DedupAscends(es: seq<Entry>)
    requires Ascending(es, false)
    ensures Ascending(Dedup(es), true)
  {
    if es != [] {
      var init, last := es[..|es| - 1], es[|es| - 1];
      var r := Dedup(init);
      DedupAscends(init);
      assert (r + [last])[..|r|] == r;
    }
  }

  lemma {:induction false} AscendingApart(es: seq<Entry>, i: nat, j: nat)
    requires Ascending(es, true) && i < j < |es|
    ensures Before(es[i].path, es[j].path)
    decreases |es|
  {
    var init, n := es[..|es| - 1], |es|;
    if j < n - 1 {
      AscendingApart(init, i, j);
    } else {
      BeforeTotal(es[n - 2].path, es[n - 1].path);
      if i < n - 2 {
        AscendingApart(init, i, n - 2);
        BeforeTotal(es[i].path, es[n - 2].path);
        BeforeTrans(es[i].path, es[n - 2].path, es[n - 1].path);
      }
    }
  }

  lemma SwapLast(inserted: seq<Entry>, init: seq<Entry>, e: Entry, last: Entry, p: Path)
    requires First(inserted, p) == First(init + [e], p) && e.path != last.path
    ensures First(inserted + [last], p) == First(init + [last] + [e], p)
  {
    FirstConcat(inserted, [last], p);
    FirstConcat(init, [e], p);
    FirstConcat(init + [last], [e], p);
    FirstConcat(init, [last], p);
  }

  lemma {:induction false} FirstOfInsert(es: seq<Entry>, e: Entry, p: Path)
    requires Ascending(es, false)
    ensures First(Insert(es, e), p) == First(es + [e], p)
  {
    hide First, Before;
    if es != [] && Before(e.path, es[|es| - 1].path) {
      var init, last := es[..|es| - 1], es[|es| - 1];
      FirstOfInsert(init, e, p);
      BeforeTotal(e.path, last.path);
      SwapLast(Insert(init, e), init, e, last, p);
      assert es == init + [last];
    }
  }

  lemma {:induction false} FirstOfSort(es: seq<Entry>, p: Path)
    ensures First(Sort(es), p) == First(es, p)
  {
    if es != [] {
      var init, last := es[..|es| - 1], es[|es| - 1];
      FirstOfSort(init, p);
      SortAscends(init);
      FirstOfInsert(Sort(init), last, p);
      FirstConcat(Sort(init), [last], p);
    }
  }

  lemma {:induction false} FirstOfDedup(es: seq<Entry>, p: Path)
    ensures First(Dedup(es), p) == First(es, p)
  {
    if es != [] {
      var init, last := es[..|es| - 1], es[|es| - 1];
      FirstOfDedup(init, p);
      FirstConcat(Dedup(init), [last], p);
      if Dedup(init) != [] {
        HasIffListed(Dedup(init), Dedup(init)[|Dedup(init)| - 1].path);
      }
    }
  }

  /** Reading a stored manifest gives a strictly ascending list - so the binary search
      of `Manifest::get` finds what is there - in which every path has the entry that
      was stored for it first. */
  lemma ParsedIsFirstWins(stored: seq<Entry>, p: Path)
    ensures First(Parsed(stored), p) == First(stored, p)
    ensures forall i, j :: 0 <= i < j < |Parsed(stored)| ==> Before(Parsed(stored)[i].path, Parsed(stored)[j].path)
  {
    FirstOfSort(stored, p);
    FirstOfDedup(Sort(stored), p);
    SortAscends(stored);
    DedupAscends(Sort(stored));
    forall i, j | 0 <= i < j < |Parsed(stored)|
      ensures Before(Parsed(stored)[i].path, Parsed(stored)[j].path)
    {
      AscendingApart(Parsed(stored), i, j);
    }
  }

  // ---- the plan ----

  /** New, changed, or not on disk. */
  predicate Needed(e: Entry, man: seq<Entry>, files: Files) {
    var m := First(man, e.path);
    m.None? || m.value.version != e.version || !Safe(e.path) || FileAt(files, e.path).None?
  }

  function FetchList(remote: seq<Entry>, man: seq<Entry>, files: Files): seq<Entry> {
    if remote == [] then []
    else
      var list, last := FetchList(remote[..|remote| - 1], man, files), remote[|remote| - 1];
      if Needed(last, man, files) then list + [last] else list
  }

  function DeleteList(man: seq<Entry>, remote: seq<Entry>): seq<Path> {
    if man == [] then []
    else
      var list, last := DeleteList(man[..|man| - 1], remote), man[|man| - 1];
      if Has(remote, last.path) then list else list + [last.path]
  }

  datatype Plan = Plan(fetch: seq<Entry>, delete: seq<Path>)

  function PlanOf(remote: seq<Entry>, man: seq<Entry>, files: Files): Plan {
    Plan(FetchList(remote, man, files), DeleteList(man, remote))
  }

  /** `reconcile`. */
  method Reconcile(remote: seq<Entry>, man: seq<Entry>, files: Files) returns (plan: Plan)
    ensures plan == PlanOf(remote, man, files)
  {
    var fetch: seq<Entry> := [];
    for i := 0 to |remote|
      invariant fetch == FetchList(remote[..i], man, files)
    {
      assert remote[..i + 1][..i] == remote[..i];
      if Needed(remote[i], man, files) { fetch := fetch + [remote[i]]; }
    }
    assert remote[..|remote|] == remote;
    var delete: seq<Path> := [];
    for i := 0 to |man|
      invariant delete == DeleteList(man[..i], remote)
    {
      assert man[..i + 1][..i] == man[..i];
      if !Has(remote, man[i].path) { delete := delete + [man[i].path]; }
    }
    assert man[..|man|] == man;
    plan := Plan(fetch, delete);
  }

  // ---- a run over the plan ----

  /** How the outside world treats one run: what each planned fetch brings (`None` when
      fetching or writing fails), which deletions take, and whether the new manifest is
      written. */
  datatype World = World(got: nat -> Option<Version>, gone: nat -> bool, saved: bool)

  datatype Work = Work(files: Files, failed: seq<Path>)

  function FetchOne(w: Work, e: Entry, got: Option<Version>): Work {
    if !Safe(e.path) || got.None? then w.(failed := w.failed + [e.path])
    else w.(files := w.files[PlaceOf(e.path) := got.value])
  }

  function Fetched(fetch: seq<Entry>, got: nat -> Option<Version>, files: Files): Work {
    if fetch == [] then Work(files, [])
    else
      var n := |fetch| - 1;
      FetchOne(Fetched(fetch[..n], got, files), fetch[n], got(n))
  }

  function DeleteOne(files: Files, p: Path, gone: bool): Files {
    if Safe(p) && gone then files - {PlaceOf(p)} else files
  }

  function Deleted(delete: seq<Path>, gone: nat -> bool, files: Files): Files {
    if delete == [] then files
    else
      var n := |delete| - 1;
      DeleteOne(Deleted(delete[..n], gone, files), delete[n], gone(n))
  }

  function Without(remote: seq<Entry>, failed: seq<Path>): seq<Entry> {
    if remote == [] then []
    else
      var list, last := Without(remote[..|remote| - 1], failed), remote[|remote| - 1];
      if last.path in failed then list else list + [last]
  }

  function OldOnes(failed: seq<Path>, man: seq<Entry>): seq<Entry> {
    if failed == [] then []
    else
      var list, kept := OldOnes(failed[..|failed| - 1], man), First(man, failed[|failed| - 1]);
      if kept.Some? then list + [kept.value] else list
  }

  /** The next manifest: the remote list without what failed, which keeps its old entry. */
  function Advanced(remote: seq<Entry>, failed: seq<Path>, man: seq<Entry>): seq<Entry> {
    Sort(Without(remote, failed) + OldOnes(failed, man))
  }

  /** What survives on the device between runs. */
  datatype Disk = Disk(files: Files, stored: seq<Entry>)

  function FetchWork(d: Disk, remote: seq<Entry>, w: World): Work {
    Fetched(FetchList(remote, Parsed(d.stored), d.files), w.got, d.files)
  }

  function Failed(d: Disk, remote: seq<Entry>, w: World): seq<Path> { FetchWork(d, remote, w).failed }

  /** `mirror_sync_run` on the collected remote list. */
  function Synced(d: Disk, remote: seq<Entry>, w: World): Disk {
    var man := Parsed(d.stored);
    var work := FetchWork(d, remote, w);
    Disk(Deleted(DeleteList(man, remote), w.gone, work.files),
         if w.saved then Advanced(remote, work.failed, man) else d.stored)
  }

  class MirrorDir {
    var files: Files
    var stored: seq<Entry>

    method SyncRun(remote: seq<Entry>, w: World) returns (failed: seq<Path>)
      modifies this
      ensures Disk(files, stored) == Synced(old(Disk(files, stored)), remote, w)
      ensures failed == Failed(old(Disk(files, stored)), remote, w)
    {
      hide Parsed, FetchList, DeleteList, Advanced, Fetched, Deleted;
      var man := Parsed(stored);
      var plan := Reconcile(remote, man, files);
      failed := FetchFiles(plan.fetch, w.got);
      DeleteFiles(plan.delete, w.gone);
      if w.saved {
        stored := Advanced(remote, failed, man);
      }
    }

    method FetchFiles(fetch: seq<Entry>, got: nat -> Option<Version>) returns (failed: seq<Path>)
      modifies this`files
      ensures Work(files, failed) == Fetched(fetch, got, old(files))
    {
      failed := [];
      for i := 0 to |fetch|
        invariant Work(files, failed) == Fetched(fetch[..i], got, old(files))
      {
        assert fetch[..i + 1][..i] == fetch[..i];
        var e := fetch[i];
        var result := got(i);
        if !Safe(e.path) || result.None? {
          failed := failed + [e.path];
        } else {
          files := files[PlaceOf(e.path) := result.value];
        }
      }
      assert fetch[..|fetch|] == fetch;
    }

    method DeleteFiles(delete: seq<Path>, gone: nat -> bool)
      modifies this`files
      ensures files == Deleted(delete, gone, old(files))
    {
      for i := 0 to |delete|
        invariant files == Deleted(delete[..i], gone, old(files))
      {
        assert delete[..i + 1][..i] == delete[..i];
        var p := delete[i];
        if Safe(p) && gone(i) { files := files - {PlaceOf(p)}; }
      }
      assert delete[..|delete|] == delete;
    }
  }

  // ---- what the pieces do to one path ----

  lemma {:induction false} FetchListIn(remote: seq<Entry>, man: seq<Entry>, files: Files, i: nat) returns (k: nat)
    requires i < |FetchList(remote, man, files)|
    ensures k < |remote| && FetchList(remote, man, files)[i] == remote[k]
  {
    hide Needed;
    var init := remote[..|remote| - 1];
    if i < |FetchList(init, man, files)| {
      k := FetchListIn(init, man, files, i);
    } else {
      k := |init|;
    }
  }

  lemma {:induction false} NeededIsFetched(remote: seq<Entry>, man: seq<Entry>, files: Files, i: nat)
    requires i < |remote| && Needed(remote[i], man, files)
    ensures Has(FetchList(remote, man, files), remote[i].path)
  {
    hide Needed;
    var init, last := remote[..|remote| - 1], remote[|remote| - 1];
    if i < |init| {
      NeededIsFetched(init, man, files, i);
      FirstConcat(FetchList(init, man, files), [last], remote[i].path);
    } else {
      FirstConcat(FetchList(init, man, files), [last], last.path);
      HasIffListed([last], last.path);
    }
  }

  /** The version that the last successful fetch of a path brought. */
  function Brought(fetch: seq<Entry>, got: nat -> Option<Version>, p: Path): Option<Version> {
    if fetch == [] then None
    else
      var n := |fetch| - 1;
      if fetch[n].path == p && Safe(p) && got(n).Some? then got(n) else Brought(fetch[..n], got, p)
  }

  /** Where one path stands after part of the fetch list was worked off. */
  ghost predicate FetchedTo(fetch: seq<Entry>, got: nat -> Option<Version>, w: Work, files: Files, p: Path) {
    var b := Brought(fetch, got, p);
    && FileAt(w.files, p) == (if b.Some? then b else FileAt(files, p))
    && (Has(fetch, p) <==> b.Some? || p in w.failed)
    && (b.Some? ==> Safe(p))
  }

  lemma FetchOneAt(w: Work, e: Entry, got: Option<Version>, p: Path)
    requires Plain(p) && Plain(e.path)
    ensures var w', hit := FetchOne(w, e, got), Safe(e.path) && got.Some?;
            && FileAt(w'.files, p) == (if hit && e.path == p then got else FileAt(w.files, p))
            && (p in w'.failed <==> p in w.failed || (!hit && e.path == p))
  {
    hide PlaceOf, Safe;
    PlainPlaces(p, e.path);
  }

  lemma {:induction false} FetchedAt(fetch: seq<Entry>, got: nat -> Option<Version>, files: Files, p: Path)
    requires AllPlain(fetch) && Plain(p)
    ensures FetchedTo(fetch, got, Fetched(fetch, got, files), files, p)
    decreases |fetch|
  {
    hide Plain, PlaceOf, Safe, FetchOne, FileAt;
    if fetch != [] {
      var n := |fetch| - 1;
      var init, e := fetch[..n], fetch[n];
      assert Has(fetch, e.path) by { HasIffListed(fetch, e.path); }
      assert AllPlain(init) by {
        forall q: Path | Has(init, q) ensures Plain(q) { assert Has(fetch, q); }
      }
      FetchedAt(init, got, files, p);
      FetchOneAt(Fetched(init, got, files), e, got(n), p);
      hide AllPlain;
    }
  }

  /** Of the planned deletions one is of this path, and took. */
  ghost predicate TakesOff(delete: seq<Path>, gone: nat -> bool, p: Path) {
    Safe(p) && exists i: nat :: i < |delete| && delete[i] == p && gone(i)
  }

  lemma TakesOffSnoc(init: seq<Path>, last: Path, gone: nat -> bool, p: Path)
    ensures TakesOff(init + [last], gone, p) <==> TakesOff(init, gone, p) || (Safe(p) && last == p && gone(|init|))
  {
    hide Safe;
    var all := init + [last];
    assert all[|init|] == last;
    if i: nat :| i < |init| && init[i] == p && gone(i) {
      assert all[i] == p && gone(i);
    }
  }

  lemma {:induction false} DeletedAt(delete: seq<Path>, gone: nat -> bool, files: Files, p: Path)
    requires Plain(p) && forall q :: q in delete ==> Plain(q)
    ensures FileAt(Deleted(delete, gone, files), p) == if TakesOff(delete, gone, p) then None else FileAt(files, p)
    decreases |delete|
  {
    hide Plain, PlaceOf, Safe, TakesOff;
    if delete == [] {
      assert !TakesOff([], gone, p) by { TakesOffNone(gone, p); }
    } else {
      var n := |delete| - 1;
      var init := delete[..n];
      DeletedAt(init, gone, files, p);
      assert delete == init + [delete[n]] && delete[n] in delete;
      TakesOffSnoc(init, delete[n], gone, p);
      assert PlaceOf(delete[n]) == PlaceOf(p) <==> delete[n] == p by { PlainPlaces(delete[n], p); }
    }
  }

  lemma TakesOffNone(gone: nat -> bool, p: Path)
    ensures !TakesOff([], gone, p)
  {
  }

  lemma {:induction false} DeleteListAt(man: seq<Entry>, remote: seq<Entry>, p: Path)
    ensures p in DeleteList(man, remote) <==> Has(man, p) && !Has(remote, p)
  {
    if man != [] {
      DeleteListAt(man[..|man| - 1], remote, p);
    }
  }

  lemma {:induction false} WithoutAt(remote: seq<Entry>, failed: seq<Path>, p: Path)
    ensures First(Without(remote, failed), p) == if p in failed then None else First(remote, p)
  {
    if remote != [] {
      var init, last := remote[..|remote| - 1], remote[|remote| - 1];
      WithoutAt(init, failed, p);
      FirstConcat(Without(init, failed), [last], p);
    }
  }

  lemma {:induction false} OldOnesAt(failed: seq<Path>, man: seq<Entry>, p: Path)
    ensures First(OldOnes(failed, man), p) == if p in failed then First(man, p) else None
  {
    if failed != [] {
      var init, last := failed[..|failed| - 1], failed[|failed| - 1];
      OldOnesAt(init, man, p);
      assert p in failed <==> p in init || p == last;
      if First(man, last).Some? {
        FirstConcat(OldOnes(init, man), [First(man, last).value], p);
      }
    }
  }

  lemma AdvancedAt(remote: seq<Entry>, failed: seq<Path>, man: seq<Entry>, p: Path)
    ensures First(Advanced(remote, failed, man), p) == if p in failed then First(man, p) else First(remote, p)
  {
    FirstOfSort(Without(remote, failed) + OldOnes(failed, man), p);
    FirstConcat(Without(remote, failed), OldOnes(failed, man), p);
    WithoutAt(remote, failed, p);
    OldOnesAt(failed, man, p);
  }

  // ---- what a run does to one path ----

  predicate Planned(d: Disk, remote: seq<Entry>, i: nat)
    requires i < |remote|
  {
    Needed(remote[i], d.stored, d.files)
  }

  /** Every planned deletion takes, or there is no file. */
  ghost predicate AllGone(d: Disk, remote: seq<Entry>, w: World) {
    var delete := DeleteList(Parsed(d.stored), remote);
    forall i: nat :: i < |delete| ==> w.gone(i) || FileAt(d.files, delete[i]).None?
  }

  /** What a run brought for a path, if anything. */
  function BroughtIn(d: Disk, remote: seq<Entry>, w: World, p: Path): Option<Version> {
    Brought(FetchList(remote, Parsed(d.stored), d.files), w.got, p)
  }

  /** The entry that the manifest has for a path after a run. */
  function EntryAfter(d: Disk, remote: seq<Entry>, w: World, p: Path): Option<Entry> {
    if p in Failed(d, remote, w) || !w.saved then First(d.stored, p) else First(remote, p)
  }

  lemma ManifestAfter(d: Disk, remote: seq<Entry>, w: World, p: Path)
    ensures First(Synced(d, remote, w).stored, p) == EntryAfter(d, remote, w, p)
  {
    ParsedIsFirstWins(d.stored, p);
    AdvancedAt(remote, Failed(d, remote, w), Parsed(d.stored), p);
  }

  lemma NeededByStored(e: Entry, stored: seq<Entry>, files: Files)
    ensures Needed(e, Parsed(stored), files) <==> Needed(e, stored, files)
  {
    ParsedIsFirstWins(stored, e.path);
  }

  lemma FetchListed(remote: seq<Entry>, man: seq<Entry>, files: Files, p: Path)
    requires Has(FetchList(remote, man, files), p)
    ensures Has(remote, p)
  {
    hide FetchList, First;
    var i := FirstAt(FetchList(remote, man, files), p);
    var k := FetchListIn(remote, man, files, i);
    HasIffListed(remote, p);
  }

  /** What fetching comes to for one path. */
  ghost predicate WorkedAt(d: Disk, remote: seq<Entry>, w: World, p: Path) {
    var b, failed := BroughtIn(d, remote, w, p), p in Failed(d, remote, w);
    && FileAt(FetchWork(d, remote, w).files, p) == (if b.Some? then b else FileAt(d.files, p))
    && (b.Some? ==> Safe(p))
    && (b.Some? || failed ==> Has(remote, p))
    && (b.None? && !failed ==> forall i :: 0 <= i < |remote| && remote[i].path == p ==> !Planned(d, remote, i))
  }

  lemma FetchWorkAt(d: Disk, remote: seq<Entry>, w: World, p: Path)
    requires AllPlain(remote) && Plain(p)
    ensures WorkedAt(d, remote, w, p)
  {
    hide Plain, Parsed, FetchList, Brought, Fetched, Needed, Safe, FileAt, First;
    var man := Parsed(d.stored);
    var fetch := FetchList(remote, man, d.files);
    assert AllPlain(fetch) by {
      forall q: Path | Has(fetch, q) ensures Plain(q) {
        FetchListed(remote, man, d.files, q);
        assert Has(remote, q);
      }
    }
    FetchedAt(fetch, w.got, d.files, p);
    if Has(fetch, p) {
      FetchListed(remote, man, d.files, p);
    } else {
      forall i | 0 <= i < |remote| && remote[i].path == p ensures !Planned(d, remote, i) {
        NeededByStored(remote[i], d.stored, d.files);
        if Planned(d, remote, i) {
          NeededIsFetched(remote, man, d.files, i);
        }
      }
    }
  }

  /** The run deletes the file of this path. */
  ghost predicate TakenOff(d: Disk, remote: seq<Entry>, w: World, p: Path) {
    TakesOff(DeleteList(Parsed(d.stored), remote), w.gone, p)
  }

  lemma DeletedAfter(d: Disk, remote: seq<Entry>, w: World, p: Path)
    requires AllPlain(d.stored) && Plain(p)
    ensures FileAt(Synced(d, remote, w).files, p)
         == if TakenOff(d, remote, w, p) then None else FileAt(FetchWork(d, remote, w).files, p)
    ensures TakenOff(d, remote, w, p) ==> !Has(remote, p) && Has(d.stored, p)
    ensures !Has(remote, p) && Has(d.stored, p) && Safe(p) && AllGone(d, remote, w) ==>
              TakenOff(d, remote, w, p) || FileAt(d.files, p).None?
  {
    hide Plain, Parsed, Safe, FileAt, FetchWork;
    var man := Parsed(d.stored);
    var delete := DeleteList(man, remote);
    forall q | q in delete ensures Plain(q) {
      DeleteListAt(man, remote, q);
      ParsedIsFirstWins(d.stored, q);
      assert Has(d.stored, q);
    }
    DeletedAt(delete, w.gone, FetchWork(d, remote, w).files, p);
    DeleteListAt(man, remote, p);
    ParsedIsFirstWins(d.stored, p);
    if p in delete {
      var i: nat :| i < |delete| && delete[i] == p;
    }
  }

  /** The file of one path after a run. */
  ghost predicate RanAt(d: Disk, remote: seq<Entry>, w: World, p: Path) {
    var b, now, old' := BroughtIn(d, remote, w, p), FileAt(Synced(d, remote, w).files, p), FileAt(d.files, p);
    && (b.Some? ==> now == b)
    && (b.None? && (Has(remote, p) || !Has(d.stored, p)) ==> now == old')
    && (!Has(remote, p) ==> now == None || now == old')
    && (!Has(remote, p) && Has(d.stored, p) && Safe(p) && AllGone(d, remote, w) ==> now == None)
  }

  lemma SyncedAt(d: Disk, remote: seq<Entry>, w: World, p: Path)
    requires AllPlain(d.stored) && AllPlain(remote) && Plain(p)
    ensures RanAt(d, remote, w, p) && WorkedAt(d, remote, w, p)
  {
    FetchWorkAt(d, remote, w, p);
    DeletedAfter(d, remote, w, p);
    hide Plain, Safe, FileAt, FetchWork, Synced, AllGone, BroughtIn, Failed, First, Planned, AllPlain;
  }

  // ---- the manifest tells the truth ----

  predicate CoherentAt(d: Disk, p: Path) {
    Has(d.stored, p) && FileAt(d.files, p).Some? ==> FileAt(d.files, p).value == First(d.stored, p).value.version
  }

  /** Every manifest entry names the version its file holds, unless the file is gone. */
  ghost predicate Coherent(d: Disk) {
    AllPlain(d.stored) && forall p: Path {:trigger CoherentAt(d, p)} :: Plain(p) ==> CoherentAt(d, p)
  }

  /** What a run brought for a path last, if anything, is the version that the manifest
      names from then on, if it names any. */
  predicate Agrees(d: Disk, remote: seq<Entry>, w: World, p: Path) {
    var b, e := BroughtIn(d, remote, w, p), EntryAfter(d, remote, w, p);
    b.Some? && e.Some? ==> e.value.version == b.value
  }

  ghost predicate AllAgree(d: Disk, remote: seq<Entry>, w: World) {
    forall p: Path {:trigger Agrees(d, remote, w, p)} :: Plain(p) ==> Agrees(d, remote, w, p)
  }

  lemma StoredPlain(d: Disk, remote: seq<Entry>, w: World)
    requires AllPlain(d.stored) && AllPlain(remote)
    ensures AllPlain(Synced(d, remote, w).stored)
  {
    hide Plain, Synced;
    forall p: Path | Has(Synced(d, remote, w).stored, p) ensures Plain(p) {
      ManifestAfter(d, remote, w, p);
      assert Has(d.stored, p) || Has(remote, p);
    }
  }

  /** A path of which nothing was fetched keeps the version that its manifest entry names. */
  lemma UnfetchedSame(d: Disk, remote: seq<Entry>, w: World, p: Path)
    requires WorkedAt(d, remote, w, p) && BroughtIn(d, remote, w, p).None?
    requires p !in Failed(d, remote, w) && Has(remote, p)
    ensures Has(d.stored, p) && First(d.stored, p).value.version == First(remote, p).value.version
    ensures Safe(p) && FileAt(d.files, p).Some?
  {
    hide First, Safe, FileAt, BroughtIn, Failed, FetchWork;
    var k := FirstAt(remote, p);
    assert remote[k].path == p && !Planned(d, remote, k);
  }

  lemma CoherentAtAfter(d: Disk, remote: seq<Entry>, w: World, p: Path)
    requires Coherent(d) && AllPlain(remote) && Plain(p)
    ensures CoherentAt(Synced(d, remote, w), p) <==> Agrees(d, remote, w, p)
  {
    SyncedAt(d, remote, w, p);
    ManifestAfter(d, remote, w, p);
    assert CoherentAt(d, p);
    if BroughtIn(d, remote, w, p).None? && p !in Failed(d, remote, w) && Has(remote, p) {
      UnfetchedSame(d, remote, w, p);
    }
    hide Plain, Synced, Failed, AllPlain, AllGone, FileAt, Safe, BroughtIn, First, FetchWork, Planned;
  }

  /** A run - whatever its list, whatever fails, whatever the fetches bring - keeps the
      manifest truthful if and only if at every path the version brought last is the
      one that the new manifest names. */
  lemma SyncKeepsCoherentIff(d: Disk, remote: seq<Entry>, w: World)
    requires Coherent(d) && AllPlain(remote)
    ensures Coherent(Synced(d, remote, w)) <==> AllAgree(d, remote, w)
  {
    hide Synced, CoherentAt, Plain, Agrees, AllPlain;
    StoredPlain(d, remote, w);
    forall p: Path | Plain(p)
      ensures CoherentAt(Synced(d, remote, w), p) <==> Agrees(d, remote, w, p)
    {
      CoherentAtAfter(d, remote, w, p);
    }
  }

  // ---- a list without duplicates, from a server at rest ----

  /** Every fetch that succeeds brings the version that was listed. */
  ghost predicate Honest(d: Disk, remote: seq<Entry>, w: World) {
    var fetch := FetchList(remote, Parsed(d.stored), d.files);
    forall i: nat :: i < |fetch| && w.got(i).Some? ==> w.got(i).value == fetch[i].version
  }

  lemma {:induction false} BroughtAt(fetch: seq<Entry>, got: nat -> Option<Version>, p: Path) returns (k: nat)
    requires Brought(fetch, got, p).Some?
    ensures k < |fetch| && fetch[k].path == p && got(k) == Brought(fetch, got, p)
  {
    var n := |fetch| - 1;
    if fetch[n].path == p && Safe(p) && got(n).Some? {
      k := n;
    } else {
      k := BroughtAt(fetch[..n], got, p);
    }
  }

  /** An honest run brings a version that is listed for the path and was needed. */
  lemma BroughtIsListed(d: Disk, remote: seq<Entry>, w: World, p: Path) returns (j: nat)
    requires Honest(d, remote, w) && BroughtIn(d, remote, w, p).Some?
    ensures j < |remote| && remote[j] == Entry(p, BroughtIn(d, remote, w, p).value)
  {
    hide FetchList, Brought, Parsed;
    var fetch := FetchList(remote, Parsed(d.stored), d.files);
    var k := BroughtAt(fetch, w.got, p);
    j := FetchListIn(remote, Parsed(d.stored), d.files, k);
  }

  lemma FirstOfDistinct(es: seq<Entry>, i: nat)
    requires Distinct(es) && i < |es|
    ensures First(es, es[i].path) == Some(es[i])
  {
    hide First;
    HasIffListed(es, es[i].path);
    var k := FirstAt(es, es[i].path);
    assert k < i || k == i || i < k;
  }

  lemma {:induction false} FetchListDistinct(remote: seq<Entry>, man: seq<Entry>, files: Files)
    requires Distinct(remote)
    ensures Distinct(FetchList(remote, man, files))
  {
    hide Needed;
    if remote != [] {
      var init, last := remote[..|remote| - 1], remote[|remote| - 1];
      FetchListDistinct(init, man, files);
      var f := FetchList(init, man, files);
      forall i | 0 <= i < |f| ensures f[i].path != last.path {
        var k := FetchListIn(init, man, files, i);
      }
    }
  }

  lemma DistinctSnoc(done: seq<Entry>, e: Entry)
    requires Distinct(done + [e])
    ensures Distinct(done) && !Has(done, e.path)
  {
    var es := done + [e];
    forall i, j | 0 <= i < j < |done| ensures done[i].path != done[j].path {
      assert es[i] == done[i] && es[j] == done[j];
    }
    forall i | 0 <= i < |done| ensures done[i].path != e.path {
      assert es[i] == done[i] && es[|done|] == e;
    }
    HasIffListed(done, e.path);
  }

  /** A path fetched once is either brought or failed. */
  lemma {:induction false} OnceOnly(fetch: seq<Entry>, got: nat -> Option<Version>, files: Files, p: Path)
    requires Distinct(fetch) && AllPlain(fetch) && Plain(p) && Brought(fetch, got, p).Some?
    ensures p !in Fetched(fetch, got, files).failed
    decreases |fetch|
  {
    hide Plain, PlaceOf, Safe, FileAt, Distinct;
    var n := |fetch| - 1;
    var init, e := fetch[..n], fetch[n];
    assert fetch == init + [e];
    DistinctSnoc(init, e);
    assert Has(fetch, e.path) by { HasIffListed(fetch, e.path); }
    assert AllPlain(init) by {
      forall q: Path | Has(init, q) ensures Plain(q) { assert Has(fetch, q); }
    }
    FetchedAt(init, got, files, p);
    FetchOneAt(Fetched(init, got, files), e, got(n), p);
    hide AllPlain, First, Fetched;
    if e.path != p {
      OnceOnly(init, got, files, p);
      OnceOnlyStep(init, e, got, files, p);
    } else {
      OnceOnlyStep(init, e, got, files, p);
    }
  }

  lemma OnceOnlyStep(init: seq<Entry>, e: Entry, got: nat -> Option<Version>, files: Files, p: Path)
    requires FetchedTo(init, got, Fetched(init, got, files), files, p) && !Has(init, e.path)
    requires Brought(init + [e], got, p).Some?
    requires e.path != p ==> p !in Fetched(init, got, files).failed
    ensures p !in Fetched(init + [e], got, files).failed
  {
    assert (init + [e])[..|init|] == init;
  }

  lemma DistinctOnce(d: Disk, remote: seq<Entry>, w: World, p: Path)
    requires Distinct(remote) && AllPlain(remote) && Plain(p) && BroughtIn(d, remote, w, p).Some?
    ensures p !in Failed(d, remote, w)
  {
    hide Plain, Parsed, FetchList, Brought, Fetched, First, Distinct;
    var man := Parsed(d.stored);
    var fetch := FetchList(remote, man, d.files);
    assert AllPlain(fetch) by {
      forall q: Path | Has(fetch, q) ensures Plain(q) {
        FetchListed(remote, man, d.files, q);
        assert Has(remote, q);
      }
    }
    FetchListDistinct(remote, man, d.files);
    OnceOnly(fetch, w.got, d.files, p);
  }

  /** With a list that names every path once, and fetches that bring what was listed, a
      run can only go wrong where the manifest is not written after a changed file was
      replaced. */
  lemma HonestAgreesIff(d: Disk, remote: seq<Entry>, w: World, p: Path)
    requires AllPlain(remote) && Distinct(remote) && Honest(d, remote, w) && Plain(p)
    ensures Agrees(d, remote, w, p)
       <==> w.saved || !(BroughtIn(d, remote, w, p).Some? && Has(d.stored, p)
                         && First(d.stored, p).value.version != BroughtIn(d, remote, w, p).value)
  {
    hide Plain, Honest, Distinct, AllPlain, First, Failed, BroughtIn;
    if BroughtIn(d, remote, w, p).Some? {
      DistinctOnce(d, remote, w, p);
      var j := BroughtIsListed(d, remote, w, p);
      FirstOfDistinct(remote, j);
    }
  }

  // ---- the next plan ----

  function NextPlan(d: Disk, remote: seq<Entry>): Plan {
    PlanOf(remote, Parsed(d.stored), d.files)
  }

  lemma {:induction false} NothingToDelete(man: seq<Entry>, remote: seq<Entry>)
    requires forall i :: 0 <= i < |man| ==> Has(remote, man[i].path)
    ensures DeleteList(man, remote) == []
  {
    if man != [] {
      NothingToDelete(man[..|man| - 1], remote);
    }
  }

  lemma NoDeletesAfter(d: Disk, remote: seq<Entry>, w: World)
    requires w.saved && AllPlain(d.stored) && AllPlain(remote)
    ensures NextPlan(Synced(d, remote, w), remote).delete == []
  {
    hide Plain, Synced, Parsed, First, Failed;
    var d' := Synced(d, remote, w);
    var man := Parsed(d'.stored);
    forall i | 0 <= i < |man| ensures Has(remote, man[i].path) {
      var p := man[i].path;
      HasIffListed(man, p);
      ParsedIsFirstWins(d'.stored, p);
      ManifestAfter(d, remote, w, p);
      if p in Failed(d, remote, w) {
        assert Plain(p) by { assert Has(d.stored, p); }
        FailedListed(d, remote, w, p);
      }
    }
    NothingToDelete(man, remote);
  }

  lemma FailedListed(d: Disk, remote: seq<Entry>, w: World, p: Path)
    requires AllPlain(remote) && Plain(p) && p in Failed(d, remote, w)
    ensures Has(remote, p)
  {
    FetchWorkAt(d, remote, w, p);
  }

  /** Whether entry `i` is planned again: a failed path, by its old manifest entry and
      what the run brought before it failed; any other, by the first entry of the list. */
  predicate Again(d: Disk, remote: seq<Entry>, w: World, i: nat)
    requires i < |remote|
  {
    var p, v := remote[i].path, remote[i].version;
    if p in Failed(d, remote, w) then
      !Has(d.stored, p) || First(d.stored, p).value.version != v || !Safe(p)
      || (BroughtIn(d, remote, w, p).None? && FileAt(d.files, p).None?)
    else Has(remote, p) && First(remote, p).value.version != v
  }

  lemma NeededAgain(d: Disk, remote: seq<Entry>, w: World, i: nat)
    requires w.saved && AllPlain(d.stored) && AllPlain(remote) && i < |remote|
    ensures var d' := Synced(d, remote, w); Needed(remote[i], d'.stored, d'.files) <==> Again(d, remote, w, i)
  {
    var p := remote[i].path;
    assert Has(remote, p) by { HasIffListed(remote, p); }
    assert Plain(p);
    SyncedAt(d, remote, w, p);
    ManifestAfter(d, remote, w, p);
    if BroughtIn(d, remote, w, p).None? && p !in Failed(d, remote, w) {
      UnfetchedSame(d, remote, w, p);
    }
    hide Plain, Synced, Failed, AllPlain, AllGone, FileAt, Safe, First, BroughtIn, FetchWork, Planned;
  }

  /** The entries of the list that are planned again. */
  function Chosen(d: Disk, remote: seq<Entry>, w: World, n: nat): seq<Entry>
    requires n <= |remote|
  {
    if n == 0 then []
    else Chosen(d, remote, w, n - 1) + if Again(d, remote, w, n - 1) then [remote[n - 1]] else []
  }

  lemma {:induction false} FetchListIsChosen(d: Disk, remote: seq<Entry>, w: World, man: seq<Entry>, files: Files,
                                             n: nat)
    requires n <= |remote|
    requires forall i :: 0 <= i < n ==> (Needed(remote[i], man, files) <==> Again(d, remote, w, i))
    ensures FetchList(remote[..n], man, files) == Chosen(d, remote, w, n)
  {
    hide Needed, Again;
    if n > 0 {
      FetchListIsChosen(d, remote, w, man, files, n - 1);
      assert remote[..n][..n - 1] == remote[..n - 1];
    }
  }

  /** After a run whose manifest was written - whatever else failed, and whatever the
      list - the next plan against the same list deletes nothing, and fetches exactly
      the entries that the run's own outcome singles out. */
  lemma NextPlanIs(d: Disk, remote: seq<Entry>, w: World)
    requires w.saved && AllPlain(d.stored) && AllPlain(remote)
    ensures NextPlan(Synced(d, remote, w), remote) == Plan(Chosen(d, remote, w, |remote|), [])
  {
    hide Synced, Parsed, Needed, Again, AllPlain;
    var d' := Synced(d, remote, w);
    forall i | 0 <= i < |remote|
      ensures Needed(remote[i], Parsed(d'.stored), d'.files) <==> Again(d, remote, w, i)
    {
      NeededAgain(d, remote, w, i);
      NeededByStored(remote[i], d'.stored, d'.files);
    }
    FetchListIsChosen(d, remote, w, Parsed(d'.stored), d'.files, |remote|);
    assert remote[..|remote|] == remote;
    NoDeletesAfter(d, remote, w);
  }

  /** The entries of the list whose path is among the failed. */
  function Only(remote: seq<Entry>, failed: seq<Path>): seq<Entry> {
    if remote == [] then []
    else
      var list, last := Only(remote[..|remote| - 1], failed), remote[|remote| - 1];
      if last.path in failed then list + [last] else list
  }

  lemma {:induction false} ChosenIsOnly(d: Disk, remote: seq<Entry>, w: World, n: nat)
    requires n <= |remote|
    requires forall i :: 0 <= i < n ==> (Again(d, remote, w, i) <==> remote[i].path in Failed(d, remote, w))
    ensures Chosen(d, remote, w, n) == Only(remote[..n], Failed(d, remote, w))
  {
    hide Again, Failed;
    if n > 0 {
      ChosenIsOnly(d, remote, w, n - 1);
      assert remote[..n][..n - 1] == remote[..n - 1];
    }
  }

  lemma AgainIffFailed(d: Disk, remote: seq<Entry>, w: World, i: nat)
    requires AllPlain(remote) && Distinct(remote) && i < |remote|
    ensures Again(d, remote, w, i) <==> remote[i].path in Failed(d, remote, w)
  {
    hide Plain, First, Safe, FileAt, Distinct;
    var p := remote[i].path;
    FirstOfDistinct(remote, i);
    if p in Failed(d, remote, w) {
      assert Plain(p) by { assert Has(remote, p); }
      if BroughtIn(d, remote, w, p).Some? {
        DistinctOnce(d, remote, w, p);
      } else {
        FailedPlanned(d, remote, w, i);
      }
    }
  }

  lemma FailedPlanned(d: Disk, remote: seq<Entry>, w: World, i: nat)
    requires AllPlain(remote) && Distinct(remote) && i < |remote| && remote[i].path in Failed(d, remote, w)
    ensures Needed(remote[i], d.stored, d.files)
  {
    var p := remote[i].path;
    var man := Parsed(d.stored);
    var fetch := FetchList(remote, man, d.files);
    FirstOfDistinct(remote, i);
    hide Plain, Parsed, FetchList, Brought, First, Needed, Safe, FileAt;
    assert Plain(p) by { assert Has(remote, p); }
    assert AllPlain(fetch) by {
      forall q: Path | Has(fetch, q) ensures Plain(q) {
        FetchListed(remote, man, d.files, q);
        assert Has(remote, q);
      }
    }
    FetchedAt(fetch, w.got, d.files, p);
    var j := FirstAt(fetch, p);
    var k := FetchListNeeded(remote, man, d.files, j);
    assert k < i || k == i || i < k;
    NeededByStored(remote[i], d.stored, d.files);
  }

  lemma {:induction false} FetchListNeeded(remote: seq<Entry>, man: seq<Entry>, files: Files, i: nat) returns (k: nat)
    requires i < |FetchList(remote, man, files)|
    ensures k < |remote| && FetchList(remote, man, files)[i] == remote[k] && Needed(remote[k], man, files)
  {
    hide Needed;
    var init := remote[..|remote| - 1];
    if i < |FetchList(init, man, files)| {
      k := FetchListNeeded(init, man, files, i);
    } else {
      k := |init|;
    }
  }

  /** For a list that names every path once that is exactly the failed files. */
  lemma RetryIsExactlyFailed(d: Disk, remote: seq<Entry>, w: World)
    requires w.saved && AllPlain(d.stored) && AllPlain(remote) && Distinct(remote)
    ensures NextPlan(Synced(d, remote, w), remote) == Plan(Only(remote, Failed(d, remote, w)), [])
  {
    hide Synced, Again, Distinct, AllPlain, NextPlan, Failed;
    NextPlanIs(d, remote, w);
    forall i | 0 <= i < |remote| ensures Again(d, remote, w, i) <==> remote[i].path in Failed(d, remote, w) {
      AgainIffFailed(d, remote, w, i);
    }
    ChosenIsOnly(d, remote, w, |remote|);
    assert remote[..|remote|] == remote;
  }

  // ---- a run without failures ----

  ghost predicate NoFailure(d: Disk, remote: seq<Entry>, w: World) {
    && w.saved
    && AllGone(d, remote, w)
    && (forall i: nat :: i < |FetchList(remote, Parsed(d.stored), d.files)| ==> w.got(i).Some?)
  }

  lemma {:induction false} FetchedAll(fetch: seq<Entry>, got: nat -> Option<Version>, files: Files)
    requires forall i: nat :: i < |fetch| ==> got(i).Some? && Safe(fetch[i].path)
    ensures Fetched(fetch, got, files).failed == []
  {
    hide Safe, PlaceOf;
    if fetch != [] {
      FetchedAll(fetch[..|fetch| - 1], got, files);
    }
  }

  lemma NoneFailed(d: Disk, remote: seq<Entry>, w: World)
    requires AllSafe(remote) && NoFailure(d, remote, w)
    ensures Failed(d, remote, w) == [] && w.saved
  {
    hide Safe, Parsed, FetchList;
    var fetch := FetchList(remote, Parsed(d.stored), d.files);
    forall i: nat | i < |fetch| ensures Safe(fetch[i].path) {
      var k := FetchListIn(remote, Parsed(d.stored), d.files, i);
      HasIffListed(remote, remote[k].path);
    }
    FetchedAll(fetch, w.got, d.files);
  }

  lemma {:induction false} ChosenEmptyIff(d: Disk, remote: seq<Entry>, w: World, n: nat)
    requires n <= |remote|
    ensures Chosen(d, remote, w, n) == [] <==> forall i :: 0 <= i < n ==> !Again(d, remote, w, i)
  {
    hide Again;
    if n > 0 {
      ChosenEmptyIff(d, remote, w, n - 1);
    }
  }

  /** Every entry has the version of the first entry for its path. */
  ghost predicate LikeFirst(es: seq<Entry>) {
    forall i :: 0 <= i < |es| ==> Has(es, es[i].path) && First(es, es[i].path).value.version == es[i].version
  }

  lemma LikeFirstIff(es: seq<Entry>)
    ensures LikeFirst(es) <==> Consistent(es)
  {
    hide First;
    if Consistent(es) {
      forall i | 0 <= i < |es|
        ensures Has(es, es[i].path) && First(es, es[i].path).value.version == es[i].version
      {
        HasIffListed(es, es[i].path);
        var k := FirstAt(es, es[i].path);
        assert k < i || k == i || i < k;
      }
    }
  }

  lemma NeverAgainIff(d: Disk, remote: seq<Entry>, w: World)
    requires Failed(d, remote, w) == []
    ensures (forall i :: 0 <= i < |remote| ==> !Again(d, remote, w, i)) <==> LikeFirst(remote)
  {
    hide First, Failed;
    forall i | 0 <= i < |remote| ensures Has(remote, remote[i].path) {
      HasIffListed(remote, remote[i].path);
    }
    if LikeFirst(remote) {
    } else {
      var i :| 0 <= i < |remote| && First(remote, remote[i].path).value.version != remote[i].version;
      assert Again(d, remote, w, i);
    }
  }

  /** After a failure-free run the next plan against the same list is empty if and only
      if the list does not give one path two versions. */
  lemma CleanRunSettlesIff(d: Disk, remote: seq<Entry>, w: World)
    requires AllPlain(d.stored) && AllPlain(remote) && AllSafe(remote) && NoFailure(d, remote, w)
    ensures NextPlan(Synced(d, remote, w), remote) == Plan([], []) <==> Consistent(remote)
  {
    hide Synced, AllPlain, AllSafe, NoFailure, First, Consistent, NextPlan, Failed, Chosen;
    NoneFailed(d, remote, w);
    NextPlanIs(d, remote, w);
    ChosenEmptyIff(d, remote, w, |remote|);
    NeverAgainIff(d, remote, w);
    LikeFirstIff(remote);
  }

  // ---- strays ----

  /** A file without a manifest entry: no run deletes it, and it is still opened by its path. */
  predicate StrayAt(d: Disk, p: Path) { FileAt(d.files, p).Some? && !Has(d.stored, p) }

  ghost predicate NoStray(d: Disk) { forall p: Path {:trigger StrayAt(d, p)} :: Plain(p) ==> !StrayAt(d, p) }

  /** A run leaves a stray where an unlisted file of the manifest is not deleted while the
      manifest is written; and where a file is brought for a path without an entry while
      the manifest is not written, or a later fetch of the path fails. */
  ghost predicate Leaves(d: Disk, remote: seq<Entry>, w: World, p: Path) {
    || (!Has(remote, p) && Has(d.stored, p) && w.saved && FileAt(d.files, p).Some? && !TakenOff(d, remote, w, p))
    || (BroughtIn(d, remote, w, p).Some? && !Has(d.stored, p) && (!w.saved || p in Failed(d, remote, w)))
  }

  /** An earlier stray is kept where its path is not listed, or nothing is brought for it. */
  predicate Keeps(d: Disk, remote: seq<Entry>, w: World, p: Path) {
    StrayAt(d, p) && (Has(remote, p) ==> BroughtIn(d, remote, w, p).None?)
  }

  lemma StrayIsNeeded(d: Disk, remote: seq<Entry>, w: World, p: Path)
    requires WorkedAt(d, remote, w, p) && Has(remote, p) && !Has(d.stored, p)
    ensures BroughtIn(d, remote, w, p).Some? || p in Failed(d, remote, w)
  {
    hide First, Safe, FileAt, BroughtIn, Failed, FetchWork;
    var k := FirstAt(remote, p);
    assert remote[k].path == p;
  }

  /** After a run there is a stray at a path if and only if the run left or kept one. */
  lemma StrayAfterIff(d: Disk, remote: seq<Entry>, w: World, p: Path)
    requires AllPlain(d.stored) && AllPlain(remote) && Plain(p)
    ensures StrayAt(Synced(d, remote, w), p) <==> Leaves(d, remote, w, p) || Keeps(d, remote, w, p)
  {
    FetchWorkAt(d, remote, w, p);
    DeletedAfter(d, remote, w, p);
    ManifestAfter(d, remote, w, p);
    if Has(remote, p) && !Has(d.stored, p) {
      StrayIsNeeded(d, remote, w, p);
    }
    hide Plain, Safe, FileAt, FetchWork, Synced, AllGone, BroughtIn, Failed, First, Planned, AllPlain, TakenOff;
  }

  ghost predicate LeavesNone(d: Disk, remote: seq<Entry>, w: World) {
    forall p: Path {:trigger Leaves(d, remote, w, p)} :: Plain(p) ==> !Leaves(d, remote, w, p)
  }

  lemma SyncNoStrayIff(d: Disk, remote: seq<Entry>, w: World)
    requires NoStray(d) && AllPlain(d.stored) && AllPlain(remote)
    ensures NoStray(Synced(d, remote, w)) <==> LeavesNone(d, remote, w)
  {
    hide Plain, AllPlain, Synced, Leaves, StrayAt;
    forall p: Path | Plain(p) ensures StrayAt(Synced(d, remote, w), p) <==> Leaves(d, remote, w, p) {
      StrayAfterIff(d, remote, w, p);
      assert !StrayAt(d, p);
    }
  }

  // ---- the mirror is the list ----

  function Listed(remote: seq<Entry>, p: Path): Option<Version> {
    if Has(remote, p) then Some(First(remote, p).value.version) else None
  }

  /** Every file lies where a safe path leads. */
  ghost predicate Rooted(files: Files) {
    forall place :: place in files ==> exists p: Path :: Plain(p) && Safe(p) && PlaceOf(p) == place
  }

  /** The files are those of the list, in their listed versions, and no others. */
  ghost predicate IsList(files: Files, remote: seq<Entry>) {
    && (forall p: Path {:trigger FileAt(files, p)} :: Plain(p) ==> FileAt(files, p) == Listed(remote, p))
    && forall place :: place in files ==> exists p: Path :: Has(remote, p) && PlaceOf(p) == place
  }

  /** A failure-free run over a truthful manifest makes the manifest the list, and the
      mirror as well, exactly at the paths where what was brought is what was listed and
      no unlisted stray lies; such a one stays as it is. */
  lemma CleanRunMirrorsIff(d: Disk, remote: seq<Entry>, w: World, p: Path)
    requires Coherent(d) && AllPlain(remote) && AllSafe(remote) && NoFailure(d, remote, w) && Plain(p) && Safe(p)
    ensures First(Synced(d, remote, w).stored, p) == First(remote, p)
    ensures FileAt(Synced(d, remote, w).files, p) == Listed(remote, p)
       <==> Agrees(d, remote, w, p) && (StrayAt(d, p) ==> Has(remote, p))
    ensures StrayAt(d, p) && !Has(remote, p) ==> FileAt(Synced(d, remote, w).files, p) == FileAt(d.files, p)
  {
    NoneFailed(d, remote, w);
    SyncedAt(d, remote, w, p);
    ManifestAfter(d, remote, w, p);
    assert CoherentAt(d, p);
    if BroughtIn(d, remote, w, p).None? && Has(remote, p) {
      UnfetchedSame(d, remote, w, p);
    }
    hide Plain, Synced, Failed, AllGone, FileAt, Safe, First, AllPlain, AllSafe, BroughtIn, FetchWork, Planned;
  }

  ghost predicate StraysListed(d: Disk, remote: seq<Entry>) {
    forall p: Path {:trigger StrayAt(d, p)} :: Plain(p) && StrayAt(d, p) ==> Has(remote, p)
  }

  lemma RootedSafe(files: Files, p: Path)
    requires Rooted(files) && Plain(p) && FileAt(files, p).Some?
    ensures Safe(p)
  {
    hide Plain, Safe, PlaceOf;
    var q: Path :| Plain(q) && Safe(q) && PlaceOf(q) == PlaceOf(p);
    PlainPlaces(p, q);
  }

  lemma IsListWhenRooted(files: Files, remote: seq<Entry>)
    requires Rooted(files)
    requires forall p: Path {:trigger FileAt(files, p)} :: Plain(p) ==> FileAt(files, p) == Listed(remote, p)
    ensures IsList(files, remote)
  {
    hide Plain, Safe, PlaceOf, First;
    forall place | place in files ensures exists p: Path :: Has(remote, p) && PlaceOf(p) == place {
      var q: Path :| Plain(q) && Safe(q) && PlaceOf(q) == place;
      assert FileAt(files, q).Some?;
      assert Has(remote, q);
    }
  }

  lemma {:induction false} FetchedRooted(fetch: seq<Entry>, got: nat -> Option<Version>, files: Files)
    requires AllPlain(fetch) && Rooted(files)
    ensures Rooted(Fetched(fetch, got, files).files)
    decreases |fetch|
  {
    hide Plain, PlaceOf, Safe;
    if fetch != [] {
      var n := |fetch| - 1;
      var init, e := fetch[..n], fetch[n];
      assert Has(fetch, e.path) by { HasIffListed(fetch, e.path); }
      assert Plain(e.path);
      assert AllPlain(init) by {
        forall q: Path | Has(init, q) ensures Plain(q) { assert Has(fetch, q); }
      }
      FetchedRooted(init, got, files);
      RootedAfterOne(Fetched(init, got, files), e, got(n));
      hide Rooted, FetchOne;
    }
  }

  lemma RootedAfterOne(w: Work, e: Entry, got: Option<Version>)
    requires Rooted(w.files) && Plain(e.path)
    ensures Rooted(FetchOne(w, e, got).files)
  {
    hide Plain, PlaceOf, Safe;
    var files := FetchOne(w, e, got).files;
    forall place | place in files ensures exists p: Path :: Plain(p) && Safe(p) && PlaceOf(p) == place {
      if place !in w.files { assert PlaceOf(e.path) == place; }
    }
  }

  lemma {:induction false} DeletedWithin(delete: seq<Path>, gone: nat -> bool, files: Files)
    ensures Deleted(delete, gone, files).Keys <= files.Keys
    decreases |delete|
  {
    hide Safe, PlaceOf;
    if delete != [] { DeletedWithin(delete[..|delete| - 1], gone, files); }
  }

  lemma FewerRooted(files: Files, fewer: Files)
    requires Rooted(files) && fewer.Keys <= files.Keys
    ensures Rooted(fewer)
  {
    hide Plain, Safe, PlaceOf;
  }

  lemma FetchesPlain(d: Disk, remote: seq<Entry>)
    requires AllPlain(remote)
    ensures AllPlain(FetchList(remote, Parsed(d.stored), d.files))
  {
    hide Plain, Parsed, FetchList, First;
    forall q: Path | Has(FetchList(remote, Parsed(d.stored), d.files), q) ensures Plain(q) {
      FetchListed(remote, Parsed(d.stored), d.files, q);
      assert Has(remote, q);
    }
  }

  lemma SyncKeepsRooted(d: Disk, remote: seq<Entry>, w: World)
    requires Rooted(d.files) && AllPlain(remote)
    ensures Rooted(Synced(d, remote, w).files)
  {
    hide Rooted, AllPlain, Parsed, FetchList, Fetched, Deleted, DeleteList;
    FetchesPlain(d, remote);
    FetchedRooted(FetchList(remote, Parsed(d.stored), d.files), w.got, d.files);
    DeletedWithin(DeleteList(Parsed(d.stored), remote), w.gone, FetchWork(d, remote, w).files);
    FewerRooted(FetchWork(d, remote, w).files, Synced(d, remote, w).files);
  }

  /** The mirror of a failure-free run is the list - the same files and no others - if and
      only if the run agrees and no stray lies outside the list. */
  lemma CleanRunIsListIff(d: Disk, remote: seq<Entry>, w: World)
    requires Coherent(d) && Rooted(d.files) && AllPlain(remote) && AllSafe(remote) && NoFailure(d, remote, w)
    ensures IsList(Synced(d, remote, w).files, remote) <==> AllAgree(d, remote, w) && StraysListed(d, remote)
  {
    hide NoFailure, Synced, AllPlain, Plain, Safe, FileAt, Agrees, StrayAt, Coherent, Rooted, First, Listed;
    var files := Synced(d, remote, w).files;
    SyncKeepsRooted(d, remote, w);
    forall p: Path | Plain(p)
      ensures FileAt(files, p) == Listed(remote, p) <==> Agrees(d, remote, w, p) && (StrayAt(d, p) ==> Has(remote, p))
    {
      if Safe(p) {
        CleanRunMirrorsIff(d, remote, w, p);
      } else {
        UnsafeIsEmpty(d, remote, w, p);
      }
    }
    if AllAgree(d, remote, w) && StraysListed(d, remote) {
      forall p: Path | Plain(p) ensures FileAt(files, p) == Listed(remote, p) {
        assert Agrees(d, remote, w, p);
      }
      IsListWhenRooted(files, remote);
    }
    if IsList(files, remote) {
      forall p: Path | Plain(p) ensures Agrees(d, remote, w, p) && (StrayAt(d, p) ==> Has(remote, p)) {
        assert FileAt(files, p) == Listed(remote, p);
      }
    }
  }

  /** Nothing is ever fetched for a path that climbs out of the mirror, and nothing lies there. */
  lemma UnsafeIsEmpty(d: Disk, remote: seq<Entry>, w: World, p: Path)
    requires Rooted(d.files) && AllPlain(remote) && AllSafe(remote) && Plain(p) && !Safe(p)
    ensures Agrees(d, remote, w, p) && !StrayAt(d, p)
    ensures FileAt(Synced(d, remote, w).files, p) == Listed(remote, p) == None
  {
    hide Plain, PlaceOf;
    FetchWorkAt(d, remote, w, p);
    SyncKeepsRooted(d, remote, w);
    if FileAt(d.files, p).Some? { RootedSafe(d.files, p); }
    if FileAt(Synced(d, remote, w).files, p).Some? { RootedSafe(Synced(d, remote, w).files, p); }
    hide Synced, Rooted;
  }

  // ---- runs ----

  /** A sync; files lost on the device; the manifest lost, or no longer readable. */
  datatype Step = Sync(remote: seq<Entry>, world: World) | Lose(places: set<Place>) | Forget

  function Next(d: Disk, step: Step): Disk {
    match step
    case Sync(remote, w) => Synced(d, remote, w)
    case Lose(places) => d.(files := d.files - places)
    case Forget => d.(stored := [])
  }

  function Run(d: Disk, steps: seq<Step>): Disk {
    if steps == [] then d else Next(Run(d, steps[..|steps| - 1]), steps[|steps| - 1])
  }

  /** The lists of a run spell paths the way a directory walk does. */
  ghost predicate PlainLists(steps: seq<Step>) {
    forall i :: 0 <= i < |steps| && steps[i].Sync? ==> AllPlain(steps[i].remote)
  }

  /** Every sync of a run agrees at every path. */
  ghost predicate AlwaysAgrees(d: Disk, steps: seq<Step>) {
    steps == [] ||
    var init, last := steps[..|steps| - 1], steps[|steps| - 1];
    AlwaysAgrees(d, init) && (last.Sync? ==> AllAgree(Run(d, init), last.remote, last.world))
  }

  /** The manifest is truthful after every step. */
  ghost predicate AlwaysCoherent(d: Disk, steps: seq<Step>) {
    Coherent(Run(d, steps)) && (steps == [] || AlwaysCoherent(d, steps[..|steps| - 1]))
  }

  lemma LossKeepsCoherent(d: Disk, places: set<Place>)
    requires Coherent(d)
    ensures Coherent(d.(files := d.files - places))
  {
    hide Plain, PlaceOf;
    var d' := d.(files := d.files - places);
    forall p: Path | Plain(p) ensures CoherentAt(d', p) {
      assert CoherentAt(d, p);
    }
  }

  lemma ForgottenCoherent(d: Disk)
    ensures Coherent(d.(stored := []))
  {
    hide Plain, FileAt;
    var d' := d.(stored := []);
    forall p: Path | Plain(p) ensures CoherentAt(d', p) { }
  }

  /** Over any run of syncs, with any failures, any lists and anything fetched, and of
      files and manifests lost on the device: every manifest entry names at all times the version its
      file holds if and only if every sync brought what its manifest then names. */
  lemma {:induction false} RunCoherentIff(d: Disk, steps: seq<Step>)
    requires Coherent(d) && PlainLists(steps)
    ensures AlwaysCoherent(d, steps) <==> AlwaysAgrees(d, steps)
    decreases |steps|
  {
    hide Coherent, Synced, AllPlain, AllAgree;
    if steps != [] {
      var init, step := steps[..|steps| - 1], steps[|steps| - 1];
      RunCoherentIff(d, init);
      if AlwaysAgrees(d, init) {
        assert Coherent(Run(d, init));
        match step {
          case Sync(remote, w) => SyncKeepsCoherentIff(Run(d, init), remote, w);
          case Lose(places) => LossKeepsCoherent(Run(d, init), places);
          case Forget => ForgottenCoherent(Run(d, init));
        }
      }
    }
  }

  lemma EmptyCoherent()
    ensures Coherent(Disk(map[], []))
  {
    forall p: Path | Plain(p) ensures CoherentAt(Disk(map[], []), p) { }
  }

  /** A first install: no files and no manifest. */
  const EMPTY: Disk := Disk(map[], [])

  /** A step of a run leaves no stray. */
  ghost predicate StepLeavesNone(d: Disk, step: Step) {
    match step
    case Sync(remote, w) => LeavesNone(d, remote, w)
    case Lose(_) => true
    case Forget =>
      forall p: Path {:trigger FileAt(d.files, p)} :: Plain(p) && Has(d.stored, p) ==> FileAt(d.files, p).None?
  }

  ghost predicate NeverLeaves(d: Disk, steps: seq<Step>) {
    steps == [] ||
    var init, last := steps[..|steps| - 1], steps[|steps| - 1];
    NeverLeaves(d, init) && StepLeavesNone(Run(d, init), last)
  }

  ghost predicate NeverStray(d: Disk, steps: seq<Step>) {
    NoStray(Run(d, steps)) && (steps == [] || NeverStray(d, steps[..|steps| - 1]))
  }

  lemma {:induction false} RunPlain(d: Disk, steps: seq<Step>)
    requires AllPlain(d.stored) && Rooted(d.files) && PlainLists(steps)
    ensures AllPlain(Run(d, steps).stored) && Rooted(Run(d, steps).files)
    decreases |steps|
  {
    hide Synced, Rooted;
    if steps != [] {
      var init, step := steps[..|steps| - 1], steps[|steps| - 1];
      RunPlain(d, init);
      var at := Run(d, init);
      match step {
        case Sync(remote, w) =>
          StoredPlain(at, remote, w);
          SyncKeepsRooted(at, remote, w);
        case Lose(places) => FewerRooted(at.files, at.files - places);
        case Forget =>
      }
    }
  }

  lemma StepNoStrayIff(d: Disk, step: Step)
    requires NoStray(d) && AllPlain(d.stored) && (step.Sync? ==> AllPlain(step.remote))
    ensures NoStray(Next(d, step)) <==> StepLeavesNone(d, step)
  {
    hide Plain, Synced, LeavesNone, AllPlain;
    match step {
      case Sync(remote, w) => SyncNoStrayIff(d, remote, w);
      case Lose(places) =>
        hide PlaceOf;
        var d' := Next(d, step);
        forall p: Path | Plain(p) ensures !StrayAt(d', p) { assert !StrayAt(d, p); }
      case Forget =>
        hide FileAt;
        var d' := Next(d, step);
        forall p: Path | Plain(p) ensures StrayAt(d', p) <==> Has(d.stored, p) && FileAt(d.files, p).Some? {
          assert !StrayAt(d, p);
        }
    }
  }

  /** Over any run there is never a stray if and only if no step leaves one. */
  lemma {:induction false} NeverStrayIff(d: Disk, steps: seq<Step>)
    requires NoStray(d) && AllPlain(d.stored) && Rooted(d.files) && PlainLists(steps)
    ensures NeverStray(d, steps) <==> NeverLeaves(d, steps)
    decreases |steps|
  {
    hide NoStray, Synced, AllPlain, Rooted, StepLeavesNone, Next;
    if steps != [] {
      var init, step := steps[..|steps| - 1], steps[|steps| - 1];
      NeverStrayIff(d, init);
      if NeverLeaves(d, init) {
        assert NeverStray(d, init);
        RunPlain(d, init);
        StepNoStrayIff(Run(d, init), step);
      }
    }
  }

  lemma EmptyIsFine()
    ensures Coherent(EMPTY) && NoStray(EMPTY) && AllPlain(EMPTY.stored) && Rooted(EMPTY.files)
  {
    EmptyCoherent();
  }

  /** From a first install, after any run of agreeing syncs, one failure-free run makes the
      mirror the list - its files and no others - if and only if it agrees too and no stray
      lies outside the list; and the next run has nothing to do exactly if the list gives
      no path two versions. */
  lemma AnyRunThenMirrors(steps: seq<Step>, remote: seq<Entry>, w: World)
    requires PlainLists(steps) && AlwaysAgrees(EMPTY, steps)
    requires AllPlain(remote) && AllSafe(remote) && NoFailure(Run(EMPTY, steps), remote, w)
    ensures var d := Run(EMPTY, steps);
            && (IsList(Synced(d, remote, w).files, remote) <==> AllAgree(d, remote, w) && StraysListed(d, remote))
            && (NextPlan(Synced(d, remote, w), remote) == Plan([], []) <==> Consistent(remote))
  {
    hide NoFailure, Synced, AllPlain, AllSafe, Consistent, NextPlan, Run, IsList, StraysListed, AllAgree, Rooted;
    var d := Run(EMPTY, steps);
    EmptyIsFine();
    RunCoherentIff(EMPTY, steps);
    RunPlain(EMPTY, steps);
    assert Coherent(d);
    CleanRunIsListIff(d, remote, w);
    CleanRunSettlesIff(d, remote, w);
  }

  // ---- runs as they should be ----

  /** A sync against a list that names every path once, in which every fetch that succeeds
      brings what was listed, every deletion takes and the manifest is written.  Fetches
      may fail. */
  ghost predicate Sane(d: Disk, remote: seq<Entry>, w: World) {
    AllPlain(remote) && Distinct(remote) && Honest(d, remote, w) && AllGone(d, remote, w) && w.saved
  }

  ghost predicate AlwaysSane(d: Disk, steps: seq<Step>) {
    steps == [] ||
    var init, last := steps[..|steps| - 1], steps[|steps| - 1];
    && AlwaysSane(d, init) && !last.Forget?
    && (last.Sync? ==> Sane(Run(d, init), last.remote, last.world))
  }

  lemma SaneAgrees(d: Disk, remote: seq<Entry>, w: World)
    requires Sane(d, remote, w)
    ensures AllAgree(d, remote, w)
  {
    hide AllPlain, Distinct, Honest, AllGone, Plain, Agrees;
    forall p: Path | Plain(p) ensures Agrees(d, remote, w, p) {
      HonestAgreesIff(d, remote, w, p);
    }
  }

  lemma SaneLeavesNone(d: Disk, remote: seq<Entry>, w: World)
    requires Sane(d, remote, w) && AllPlain(d.stored) && Rooted(d.files)
    ensures LeavesNone(d, remote, w)
  {
    hide AllPlain, Distinct, Honest, AllGone, Plain, Rooted, FileAt, TakenOff, BroughtIn, Failed, First;
    forall p: Path | Plain(p) ensures !Leaves(d, remote, w, p) {
      DeletedAfter(d, remote, w, p);
      if FileAt(d.files, p).Some? { RootedSafe(d.files, p); }
      if BroughtIn(d, remote, w, p).Some? { DistinctOnce(d, remote, w, p); }
    }
  }

  lemma {:induction false} AlwaysSaneIsFine(steps: seq<Step>)
    requires AlwaysSane(EMPTY, steps)
    ensures PlainLists(steps) && AlwaysAgrees(EMPTY, steps) && NeverLeaves(EMPTY, steps)
    decreases |steps|
  {
    hide Run, Sane, AllAgree, LeavesNone, AllPlain, Rooted;
    if steps != [] {
      var init, step := steps[..|steps| - 1], steps[|steps| - 1];
      AlwaysSaneIsFine(init);
      EmptyIsFine();
      RunPlain(EMPTY, init);
      if step.Sync? {
        SaneAgrees(Run(EMPTY, init), step.remote, step.world);
        SaneLeavesNone(Run(EMPTY, init), step.remote, step.world);
        SaneIsPlain(Run(EMPTY, init), step.remote, step.world);
      }
    }
  }

  lemma SaneIsPlain(d: Disk, remote: seq<Entry>, w: World)
    requires Sane(d, remote, w)
    ensures AllPlain(remote)
  {
  }

  /** The promise of the mirror.  From a first install, after any sane syncs - some of their
      fetches failing, files lost on the device in between - one in which no fetch fails
      makes the mirror the list, its files and no others, and the manifest too; and the next
      run has nothing to do. */
  lemma SaneRunMirrors(steps: seq<Step>, remote: seq<Entry>, w: World)
    requires AlwaysSane(EMPTY, steps)
    requires AllSafe(remote) && Sane(Run(EMPTY, steps), remote, w) && NoFailure(Run(EMPTY, steps), remote, w)
    ensures var d' := Synced(Run(EMPTY, steps), remote, w);
            && IsList(d'.files, remote) && NextPlan(d', remote) == Plan([], [])
            && forall p: Path :: First(d'.stored, p) == First(remote, p)
  {
    var d := Run(EMPTY, steps);
    hide NoFailure, Synced, AllPlain, AllSafe, NextPlan, Run, IsList, AllAgree, Rooted, Honest, AllGone;
    hide NeverLeaves, AlwaysAgrees, First, Failed;
    AlwaysSaneIsFine(steps);
    EmptyIsFine();
    NeverStrayIff(EMPTY, steps);
    assert NoStray(d) by { assert NeverStray(EMPTY, steps); }
    SaneAgrees(d, remote, w);
    AnyRunThenMirrors(steps, remote, w);
    NoneFailed(d, remote, w);
    forall p: Path ensures First(Synced(d, remote, w).stored, p) == First(remote, p) {
      ManifestAfter(d, remote, w, p);
    }
  }

  // ---- where the promise ends ----

  lemma OneEntry(p: Path, v: Version, q: Path)
    ensures First([Entry(p, v)], q) == if q == p then Some(Entry(p, v)) else None
  {
    assert [Entry(p, v)][..0] == [];
  }

  lemma OneFetch(e: Entry, man: seq<Entry>, files: Files)
    ensures FetchList([e], man, files) == if Needed(e, man, files) then [e] else []
  {
    hide Needed;
    assert [e][..0] == [];
    assert [] + [e] == [e];
  }

  lemma FirstOfNone(p: Path)
    ensures First([], p) == None
  {
  }

  lemma OneParsed(e: Entry)
    ensures Sort([e]) == [e] && Parsed([e]) == [e] && Parsed([]) == []
  {
    assert [e][..0] == [];
    assert Sort([]) == [];
    assert Sort([e]) == [e];
    assert Dedup([]) == [];
    assert Dedup([e]) == [e];
  }

  lemma OneWorked(e: Entry, w: World)
    requires Safe(e.path) && w.got(0).Some?
    ensures Fetched([e], w.got, map[]) == Work(map[PlaceOf(e.path) := w.got(0).value], [])
    ensures Brought([e], w.got, e.path) == w.got(0)
    ensures Advanced([e], [], []) == [e] && DeleteList([], [e]) == []
    ensures Deleted([], w.gone, map[PlaceOf(e.path) := w.got(0).value]) == map[PlaceOf(e.path) := w.got(0).value]
  {
    hide Safe, PlaceOf;
    assert [e][..0] == [] && [] + [e] == [e] && [e] + [] == [e];
    assert Without([e], []) == [e] && OldOnes([], []) == [];
    OneParsed(e);
  }

  /** A first sync that brings one file. */
  lemma FirstSync(p: Path, v: Version, w: World)
    requires Plain(p) && Safe(p) && w.got(0) == Some(v)
    ensures Synced(EMPTY, [Entry(p, v)], w) == Disk(map[PlaceOf(p) := v], if w.saved then [Entry(p, v)] else [])
    ensures Failed(EMPTY, [Entry(p, v)], w) == [] && AllPlain([Entry(p, v)])
    ensures Agrees(EMPTY, [Entry(p, v)], w, p)
  {
    hide Plain, Safe, PlaceOf;
    var e := Entry(p, v);
    OneFetch(e, [], map[]);
    OneEntry(p, v, p);
    FirstOfNone(p);
    OneParsed(e);
    assert FetchList([e], Parsed([]), map[]) == [e];
    OneWorked(e, w);
    forall q: Path | Has([e], q) ensures Plain(q) { OneEntry(p, v, q); }
    hide FetchList, Parsed, Fetched, Advanced, Brought, First;
  }

  lemma FirstSyncAgrees(p: Path, v: Version, w: World)
    requires Plain(p) && Safe(p) && w.got(0) == Some(v)
    ensures AllAgree(EMPTY, [Entry(p, v)], w)
  {
    hide Plain, Safe, Synced, Agrees;
    FirstSync(p, v, w);
    forall q: Path | Plain(q) ensures Agrees(EMPTY, [Entry(p, v)], w, q) {
      if q != p { UnlistedAgrees(EMPTY, [Entry(p, v)], w, q) by { OneEntry(p, v, q); } }
    }
  }

  lemma UnlistedAgrees(d: Disk, remote: seq<Entry>, w: World, p: Path)
    requires AllPlain(remote) && Plain(p) && !Has(remote, p)
    ensures Agrees(d, remote, w, p)
  {
    FetchWorkAt(d, remote, w, p);
  }

  /** A first sync whose manifest is not written agrees at every path, and leaves a stray. */
  lemma UnwrittenLeavesStray(p: Path, v: Version, w: World)
    requires Plain(p) && Safe(p) && w.got(0) == Some(v) && !w.saved
    ensures AllAgree(EMPTY, [Entry(p, v)], w)
    ensures StrayAt(Synced(EMPTY, [Entry(p, v)], w), p)
  {
    hide Plain, Safe, Synced, AllAgree, PlaceOf;
    FirstSyncAgrees(p, v, w);
    FirstSync(p, v, w);
    FirstOfNone(p);
  }

  /** The deletion of the only file fails while the new manifest is written. */
  lemma FailedDeletion(p: Path, v: Version, w: World)
    requires Plain(p) && Safe(p) && w.saved && !w.gone(0)
    ensures var d := Disk(map[PlaceOf(p) := v], [Entry(p, v)]);
            Synced(d, [], w) == Disk(d.files, []) && AllAgree(d, [], w)
  {
    hide Plain, Safe, PlaceOf;
    var d, e := Disk(map[PlaceOf(p) := v], [Entry(p, v)]), Entry(p, v);
    OneParsed(e);
    OneUndeleted(e, w, d.files);
    hide FetchList, DeleteList, Parsed, Fetched, Deleted, Advanced, Brought;
    forall q: Path | Plain(q) ensures Agrees(d, [], w, q) { }
  }

  lemma OneUndeleted(e: Entry, w: World, files: Files)
    requires !w.gone(0)
    ensures DeleteList([e], []) == [e.path] && Deleted([e.path], w.gone, files) == files
    ensures FetchList([], [e], files) == [] && Fetched([], w.got, files) == Work(files, [])
    ensures Advanced([], [], [e]) == [] && forall q: Path :: Brought([], w.got, q) == None
  {
    FirstOfNone(e.path);
    OneDeleteList(e);
    OneKept(e.path, w, files);
    NoneAdvanced(e);
    hide Safe, PlaceOf, Advanced, Deleted, DeleteList;
  }

  lemma OneDeleteList(e: Entry)
    ensures DeleteList([e], []) == [e.path]
  {
    FirstOfNone(e.path);
    hide First;
    assert [e][..0] == [] && DeleteList([], []) == [] && [] + [e.path] == [e.path];
  }

  lemma OneKept(p: Path, w: World, files: Files)
    requires !w.gone(0)
    ensures Deleted([p], w.gone, files) == files
  {
    hide Safe, PlaceOf;
    assert [p][..0] == [];
  }

  lemma NoneAdvanced(e: Entry)
    ensures Advanced([], [], [e]) == []
  {
    hide First, Insert;
    assert Without([], []) == [] && OldOnes([], [e]) == [];
  }

  /** What is not listed stays where it is if it has no entry. */
  lemma StrayStays(d: Disk, remote: seq<Entry>, w: World, p: Path)
    requires AllPlain(d.stored) && AllPlain(remote) && Plain(p) && StrayAt(d, p) && !Has(remote, p)
    ensures var d' := Synced(d, remote, w); StrayAt(d', p) && FileAt(d'.files, p) == FileAt(d.files, p)
  {
    FetchWorkAt(d, remote, w, p);
    DeletedAfter(d, remote, w, p);
    StrayAfterIff(d, remote, w, p);
  }

  /** The steps do not list the path and do not lose its file. */
  ghost predicate Untouched(steps: seq<Step>, p: Path) {
    forall i :: 0 <= i < |steps| ==>
      (steps[i].Sync? ==> !Has(steps[i].remote, p)) && (steps[i].Lose? ==> PlaceOf(p) !in steps[i].places)
  }

  /** No later step clears a stray as long as its path is not listed. */
  lemma {:induction false} StrayForGood(d: Disk, steps: seq<Step>, p: Path)
    requires AllPlain(d.stored) && Rooted(d.files) && PlainLists(steps) && Plain(p)
    requires StrayAt(d, p) && Untouched(steps, p)
    ensures StrayAt(Run(d, steps), p) && FileAt(Run(d, steps).files, p) == FileAt(d.files, p)
    decreases |steps|
  {
    hide Synced, AllPlain, Rooted, Plain, PlaceOf;
    if steps != [] {
      var init, step := steps[..|steps| - 1], steps[|steps| - 1];
      StrayForGood(d, init, p);
      RunPlain(d, init);
      FirstOfNone(p);
      if step.Sync? { StrayStays(Run(d, init), step.remote, step.world, p); }
    }
  }

  /** The run that keeps a deleted file for good.  One sync brings `p`; the server deletes
      it, and the next sync empties the manifest but cannot delete the file.  Both agree,
      nothing is planned any more, and the file stays through whatever follows without
      listing it again. */
  lemma DeletedFileStays(p: Path, v: Version, w0: World, w1: World, later: seq<Step>)
    requires Plain(p) && Safe(p) && w0.got(0) == Some(v) && w0.saved && w1.saved && !w1.gone(0)
    requires PlainLists(later) && Untouched(later, p)
    ensures var first := [Sync([Entry(p, v)], w0), Sync([], w1)];
            && AlwaysAgrees(EMPTY, first) && NextPlan(Run(EMPTY, first), []) == Plan([], [])
            && FileAt(Run(Run(EMPTY, first), later).files, p) == Some(v)
  {
    hide Plain, Safe, PlaceOf, Synced, AllAgree;
    var e, first := Entry(p, v), [Sync([Entry(p, v)], w0), Sync([], w1)];
    var one := [first[0]];
    assert first[..1] == one && one[..0] == [];
    FirstSync(p, v, w0);
    FirstSyncAgrees(p, v, w0);
    FailedDeletion(p, v, w1);
    var d := Run(EMPTY, first);
    assert Run(EMPTY, one) == Disk(map[PlaceOf(p) := v], [e]);
    assert d == Disk(map[PlaceOf(p) := v], []);
    OneParsed(e);
    assert NextPlan(d, []) == Plan([], []);
    assert AlwaysAgrees(EMPTY, []);
    assert AlwaysAgrees(EMPTY, one);
    FirstOfNone(p);
    OneFileRooted(p, v);
    NonePlain();
    StrayForGood(d, later, p);
  }

  lemma OneFileRooted(p: Path, v: Version)
    requires Plain(p) && Safe(p)
    ensures Rooted(map[PlaceOf(p) := v])
  {
    hide Plain, Safe, PlaceOf;
  }

  lemma NonePlain()
    ensures AllPlain([])
  {
  }

  /** If the manifest cannot be written after a file was replaced, and the server then
      goes back to the old version, no later run ever repairs the mirror: it plans
      nothing while the file holds the other version. */
  lemma UnsavedGoesStale(p: Path, v1: Version, v2: Version, w: World)
    requires Plain(p) && Safe(p) && v1 != v2
    requires w.got(0) == Some(v2) && !w.saved
    ensures var d := Disk(map[PlaceOf(p) := v1], [Entry(p, v1)]);
            var d' := Synced(d, [Entry(p, v2)], w);
            && Coherent(d)
            && NextPlan(d', [Entry(p, v1)]) == Plan([], [])
            && FileAt(d'.files, p) == Some(v2)
  {
    hide Plain, Safe, PlaceOf, Parsed;
    var d := Disk(map[PlaceOf(p) := v1], [Entry(p, v1)]);
    var remote := [Entry(p, v2)];
    OneIsCoherent(p, v1);
    StaleStep(d, p, v1, v2, w);
    StaleRest(Synced(d, remote, w), p, v1);
  }

  lemma StaleStep(d: Disk, p: Path, v1: Version, v2: Version, w: World)
    requires d == Disk(map[PlaceOf(p) := v1], [Entry(p, v1)])
    requires Plain(p) && Safe(p) && v1 != v2 && w.got(0) == Some(v2) && !w.saved
    ensures var d' := Synced(d, [Entry(p, v2)], w); d'.stored == d.stored && FileAt(d'.files, p) == Some(v2)
  {
    hide Plain, Safe, PlaceOf, Parsed;
    var e := Entry(p, v2);
    OneEntry(p, v1, p);
    OneEntry(p, v2, p);
    NeededByStored(e, d.stored, d.files);
    OneFetch(e, Parsed(d.stored), d.files);
    assert [e][..0] == [];
    forall q: Path | Has(d.stored, q) ensures Plain(q) { OneEntry(p, v1, q); }
    DeletedAfter(d, [e], w, p);
  }

  lemma StaleRest(d: Disk, p: Path, v: Version)
    requires d.stored == [Entry(p, v)] && FileAt(d.files, p).Some? && Safe(p)
    ensures NextPlan(d, [Entry(p, v)]) == Plan([], [])
  {
    hide Safe, Parsed, First;
    var e, man := Entry(p, v), Parsed(d.stored);
    OneEntry(p, v, p);
    NeededByStored(e, d.stored, d.files);
    OneFetch(e, man, d.files);
    forall i | 0 <= i < |man| ensures Has([e], man[i].path) {
      HasIffListed(man, man[i].path);
      ParsedIsFirstWins(d.stored, man[i].path);
    }
    NothingToDelete(man, [e]);
  }

  /** Why no path may be listed twice: the second fetch of a path fails, so the manifest
      keeps the old version, while the file has the one that the first fetch brought.
      Every version brought is the one listed, and the list names one version only. */
  lemma PartialFailureLies(p: Path, v0: Version, v1: Version, w: World)
    requires Plain(p) && Safe(p) && v0 != v1
    requires w.got(0) == Some(v1) && w.got(1) == None && w.saved
    ensures var d := Disk(map[PlaceOf(p) := v0], [Entry(p, v0)]);
            var remote := [Entry(p, v1), Entry(p, v1)];
            Coherent(d) && Consistent(remote) && Honest(d, remote, w) && !CoherentAt(Synced(d, remote, w), p)
  {
    var d, e := Disk(map[PlaceOf(p) := v0], [Entry(p, v0)]), Entry(p, v1);
    var remote := [e, e];
    hide Coherent, Plain, Safe, PlaceOf, Failed, BroughtIn, Synced, First, Honest, AllPlain;
    OneIsCoherent(p, v0);
    PartialPlain(p, v1);
    PartialOutcome(d, p, v0, v1, w);
    OneEntry(p, v0, p);
    CoherentAtAfter(d, remote, w, p);
  }

  lemma PartialOutcome(d: Disk, p: Path, v0: Version, v1: Version, w: World)
    requires d.stored == [Entry(p, v0)] && Plain(p) && Safe(p) && v0 != v1
    requires w.got(0) == Some(v1) && w.got(1) == None
    ensures var remote := [Entry(p, v1), Entry(p, v1)];
            BroughtIn(d, remote, w, p) == Some(v1) && p in Failed(d, remote, w) && Honest(d, remote, w)
  {
    hide Plain, Safe, PlaceOf, Parsed, FetchList;
    var e := Entry(p, v1);
    OneEntry(p, v0, p);
    NeededByStored(e, d.stored, d.files);
    TwoFetches(e, Parsed(d.stored), d.files);
    assert [e, e][..1] == [e] && [e][..0] == [];
    assert Brought([e], w.got, p) == Some(v1);
  }

  lemma PartialPlain(p: Path, v1: Version)
    requires Plain(p)
    ensures AllPlain([Entry(p, v1), Entry(p, v1)])
  {
    hide Plain;
    var es := [Entry(p, v1), Entry(p, v1)];
    forall q: Path | Has(es, q) ensures Plain(q) {
      HasIffListed(es, q);
    }
  }

  lemma OneIsCoherent(p: Path, v: Version)
    requires Plain(p)
    ensures Coherent(Disk(map[PlaceOf(p) := v], [Entry(p, v)]))
  {
    hide Plain, PlaceOf;
    var d := Disk(map[PlaceOf(p) := v], [Entry(p, v)]);
    forall q ensures Has(d.stored, q) <==> q == p {
      OneEntry(p, v, q);
    }
    OneEntry(p, v, p);
    forall q: Path | Plain(q) ensures CoherentAt(d, q) { }
  }

  lemma TwoFetches(e: Entry, man: seq<Entry>, files: Files)
    requires Needed(e, man, files)
    ensures FetchList([e, e], man, files) == [e, e]
  {
    hide Needed;
    OneFetch(e, man, files);
    assert [e, e][..1] == [e];
  }
}

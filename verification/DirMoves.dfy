/** Moving a file or directory on disk, as rename does it, and which nodes of the size cache
    that makes stale. */
module DirMoves {
  import opened Wrappers
  import opened DirSpec
  import opened DirExact
  import opened DirectoryMap

  /** The entry `name` of directory s becomes the entry `newName` of directory d. */
  datatype Move = Move(s: nat, name: string, d: nat, newName: string)

  /*** the disk after a move ***/

  function EntryAt(es: seq<Entry>, name: string): (r: Option<Entry>)
    ensures r.Some? ==> r.value in es && r.value.name == name
    ensures r.None? ==> forall e :: e in es ==> e.name != name
  {
    if es == [] then None else if es[0].name == name then Some(es[0]) else EntryAt(es[1..], name)
  }

  function Without(es: seq<Entry>, name: string): (r: seq<Entry>)
    ensures forall e :: e in r <==> e in es && e.name != name
  {
    if es == [] then [] else (if es[0].name == name then [] else [es[0]]) + Without(es[1..], name)
  }

  function Renamed(e: Entry, name: string): Entry {
    match e case File(_, size) => File(name, size) case Folder(_, id, link) => Folder(name, id, link)
  }

  predicate IsDir(e: Entry) {
    e.Folder? && !e.link
  }

  /** A directory may replace an empty one; a file or a link may replace a file, and a file a
      link. */
  predicate CanReplace(fs: Fs, e: Entry, t: Entry) {
    if IsDir(e) then IsDir(t) && t.id in fs.dirs && fs.dirs[t.id] == []
    else t.File? || (t.link && e.File?)
  }

  /** The destination's listing before the entry arrives. */
  function Emptied(fs: Fs, m: Move): seq<Entry>
    requires m.s in fs.dirs && m.d in fs.dirs
  {
    if m.s == m.d then Without(fs.dirs[m.d], m.name) else fs.dirs[m.d]
  }

  predicate Possible(fs: Fs, m: Move) {
    && m.s in fs.dirs && m.d in fs.dirs && !(m.s == m.d && m.name == m.newName)
    && EntryAt(fs.dirs[m.s], m.name).Some?
    && (EntryAt(Emptied(fs, m), m.newName).Some? ==>
          CanReplace(fs, EntryAt(fs.dirs[m.s], m.name).value, EntryAt(Emptied(fs, m), m.newName).value))
  }

  function Moved(fs: Fs, m: Move): Fs
    requires Possible(fs, m)
  {
    var e := EntryAt(fs.dirs[m.s], m.name).value;
    fs.(dirs := fs.dirs[m.s := Without(fs.dirs[m.s], m.name)]
                       [m.d := Without(Emptied(fs, m), m.newName) + [Renamed(e, m.newName)]])
  }

  /** The third follows from the others. */
  predicate Legal(fs: Fs, m: Move) {
    WellFormed(fs) && Possible(fs, m) && WellFormed(Moved(fs, m))
  }

  lemma {:induction false} WithoutDistinct(es: seq<Entry>, name: string)
    requires Distinct(es)
    ensures Distinct(Without(es, name))
  {
    if es != [] {
      assert Distinct(es[1..]);
      WithoutDistinct(es[1..], name);
      var rest := Without(es[1..], name);
      if es[0].name != name {
        forall j | 0 <= j < |rest| ensures rest[j].name != es[0].name {
          assert rest[j] in es[1..];
          var k :| 0 <= k < |es[1..]| && es[1..][k] == rest[j];
          assert es[k + 1] == rest[j];
        }
      }
    }
  }

  lemma {:induction false} EntryWithout(es: seq<Entry>, name: string, n: string)
    ensures EntryAt(Without(es, name), n) == if n == name then None else EntryAt(es, n)
  {
    if es != [] {
      var rest := Without(es[1..], name);
      EntryWithout(es[1..], name, n);
      if es[0].name == name {
        assert Without(es, name) == rest;
      } else {
        assert Without(es, name) == [es[0]] + rest && ([es[0]] + rest)[1..] == rest;
      }
    }
  }

  lemma {:induction false} EntryBehind(es: seq<Entry>, last: Entry, n: string)
    ensures EntryAt(es + [last], n) ==
      if EntryAt(es, n).Some? then EntryAt(es, n) else if last.name == n then Some(last) else None
  {
    if es == [] {
      assert es + [last] == [last];
    } else {
      assert (es + [last])[1..] == es[1..] + [last];
      EntryBehind(es[1..], last, n);
    }
  }

  /** After a move the new name is that entry, the old one is gone, and every other name in
      any directory is what it was. */
  lemma MovedExactly(fs: Fs, m: Move, id: nat, n: string)
    requires Possible(fs, m) && id in fs.dirs
    ensures Moved(fs, m).top == fs.top && Moved(fs, m).dirs.Keys == fs.dirs.Keys
    ensures EntryAt(Moved(fs, m).dirs[id], n) ==
      if id == m.d && n == m.newName then Some(Renamed(EntryAt(fs.dirs[m.s], m.name).value, n))
      else if id == m.s && n == m.name then None
      else EntryAt(fs.dirs[id], n)
  {
    EntryWithout(fs.dirs[m.s], m.name, n);
    EntryWithout(Emptied(fs, m), m.newName, n);
    EntryBehind(Without(Emptied(fs, m), m.newName), Renamed(EntryAt(fs.dirs[m.s], m.name).value, m.newName), n);
  }

  lemma MovedWellFormed(fs: Fs, m: Move)
    requires WellFormed(fs) && Possible(fs, m)
    ensures Legal(fs, m)
  {
    var fs', e := Moved(fs, m), EntryAt(fs.dirs[m.s], m.name).value;
    WithoutDistinct(fs.dirs[m.s], m.name);
    WithoutDistinct(Emptied(fs, m), m.newName);
    forall id | id in fs'.dirs
      ensures Distinct(fs'.dirs[id])
      ensures forall i :: 0 <= i < |fs'.dirs[id]| && fs'.dirs[id][i].Folder? ==> fs'.dirs[id][i].id in fs'.dirs
    {
      forall i | 0 <= i < |fs'.dirs[id]| && fs'.dirs[id][i].Folder? ensures fs'.dirs[id][i].id in fs.dirs {
        var f := fs'.dirs[id][i];
        assert f in fs'.dirs[id];
        if f in fs.dirs[id] {
          var k :| 0 <= k < |fs.dirs[id]| && fs.dirs[id][k] == f;
        } else {
          assert f == Renamed(e, m.newName);
          var k :| 0 <= k < |fs.dirs[m.s]| && fs.dirs[m.s][k] == e;
        }
      }
    }
  }

  /*** where names lead ***/

  /** The directory that a name in directory id leads to. */
  function Step(fs: Fs, id: nat, n: string): Option<nat>
    requires id in fs.dirs
  {
    match Find(fs.dirs[id], n) case None => None case Some(e) => Some(e.id)
  }

  lemma FindSame(a: seq<Entry>, b: seq<Entry>, n: string)
    requires Distinct(a) && Distinct(b)
    requires forall e: Entry :: e.Folder? && e.name == n ==> (e in a <==> e in b)
    ensures Find(a, n) == Find(b, n)
  {
    if Find(a, n).Some? {
      FindUnique(b, Find(a, n).value);
    }
  }

  /** Names lead where they led, but for the two the move is about. */
  lemma StepSame(fs: Fs, m: Move, id: nat, n: string)
    requires Legal(fs, m) && id in fs.dirs
    requires !(id == m.s && n == m.name) && !(id == m.d && n == m.newName)
    ensures Step(Moved(fs, m), id, n) == Step(fs, id, n)
  {
    FindSame(Moved(fs, m).dirs[id], fs.dirs[id], n);
  }

  /** The directory that is replaced, if one is, by another. */
  predicate Replaces(fs: Fs, m: Move)
    requires Possible(fs, m)
  {
    var t := EntryAt(Emptied(fs, m), m.newName);
    t.Some? && IsDir(t.value) && IsDir(EntryAt(fs.dirs[m.s], m.name).value)
  }

  lemma {:induction false} EntryUnique(es: seq<Entry>, e: Entry)
    requires Distinct(es) && e in es
    ensures EntryAt(es, e.name) == Some(e)
  {
    var f := EntryAt(es, e.name).value;
    var i :| 0 <= i < |es| && es[i] == e;
    var j :| 0 <= j < |es| && es[j] == f;
    assert i < j ==> es[i].name != es[j].name;
    assert j < i ==> es[j].name != es[i].name;
  }

  /** A directory that the arriving entry takes the place of is empty. */
  lemma Replaced(fs: Fs, m: Move)
    requires Legal(fs, m)
    requires Step(fs, m.d, m.newName).Some? && Step(Moved(fs, m), m.d, m.newName).Some?
    ensures Replaces(fs, m) && fs.dirs[Step(fs, m.d, m.newName).value] == []
  {
    var e := EntryAt(fs.dirs[m.s], m.name).value;
    var f := Find(fs.dirs[m.d], m.newName).value;
    WithoutDistinct(fs.dirs[m.d], m.name);
    EntryUnique(Emptied(fs, m), f);
    var g := Find(Moved(fs, m).dirs[m.d], m.newName).value;
    assert g == Renamed(e, m.newName);
  }

  /** A name that leads somewhere before and after leads to the same directory, unless an empty
      directory was replaced. */
  lemma StepBoth(fs: Fs, m: Move, id: nat, n: string)
    requires Legal(fs, m) && id in fs.dirs
    requires Step(fs, id, n).Some? && Step(Moved(fs, m), id, n).Some?
    ensures Step(fs, id, n) == Step(Moved(fs, m), id, n) || (Replaces(fs, m) && id == m.d && n == m.newName)
  {
    if id == m.d && n == m.newName {
      Replaced(fs, m);
    } else {
      StepSame(fs, m, id, n);
    }
  }

  /*** what becomes stale ***/

  /** A path that leads somewhere before and after leads to the same directory, or ends at the
      empty directory that is replaced. */
  lemma {:induction false} PathBoth(fs: Fs, m: Move, q: Path)
    requires Legal(fs, m)
    requires Resolve(fs, q).Some? && Resolve(Moved(fs, m), q).Some?
    ensures Resolve(fs, q) == Resolve(Moved(fs, m), q) || EndsReplaced(fs, m, q)
    decreases |q|
  {
    if q != [] {
      Split(q);
      ParentResolves(fs, q);
      ParentResolves(Moved(fs, m), q);
      PathBoth(fs, m, Parent(q));
      ResolveStep(fs, Parent(q), Last(q));
      ResolveStep(Moved(fs, m), Parent(q), Last(q));
      var id := Resolve(fs, Parent(q)).value;
      StepBoth(fs, m, id, Last(q));
      if Step(fs, id, Last(q)) != Step(Moved(fs, m), id, Last(q)) {
        Replaced(fs, m);
      }
    }
  }

  /** q is the name that the moved directory takes over from an empty one. */
  predicate EndsReplaced(fs: Fs, m: Move, q: Path)
    requires Legal(fs, m)
  {
    && Replaces(fs, m) && q != [] && Last(q) == m.newName
    && Resolve(fs, Parent(q)) == Some(m.d) && Resolve(Moved(fs, m), Parent(q)) == Some(m.d)
    && Resolve(fs, q).Some? && fs.dirs[Resolve(fs, q).value] == []
  }

  predicate SameSums(a: seq<Entry>, b: seq<Entry>) {
    FileSum(a) == FileSum(b) && Names(Folders(a)) == Names(Folders(b))
  }

  /** What is recorded, and still exists, contains itself if and only if it did. */
  ghost predicate LoopsSame(fs: Fs, fs': Fs)
    requires WellFormed(fs) && WellFormed(fs')
  {
    forall q :: q in Full(fs) && Resolve(fs', q).Some? ==> (Loops(fs, q) <==> Loops(fs', q))
  }

  /** Every way to directory x, recorded and still there, ends at or above one of the parents. */
  ghost predicate OnlyBy(fs: Fs, fs': Fs, x: nat, src: Path, dst: Path)
    requires WellFormed(fs) && WellFormed(fs')
  {
    forall q :: q in Full(fs) && Resolve(fs, q) == Some(x) && Resolve(fs', q) == Some(x) && !Loops(fs', q) ==>
      q <= src || q <= dst
  }

  /** An empty directory is replaced by one that is not. */
  predicate FillsEmpty(fs: Fs, m: Move)
    requires Possible(fs, m)
  {
    Replaces(fs, m) && EntryAt(fs.dirs[m.s], m.name).value.id in Moved(fs, m).dirs
    && !SameSums([], Moved(fs, m).dirs[EntryAt(fs.dirs[m.s], m.name).value.id])
  }

  /** The move is of something in the directory at src to the directory at dst, and both
      are still there afterwards. */
  predicate Between(fs: Fs, m: Move, src: Path, dst: Path)
    requires Legal(fs, m)
  {
    && Resolve(fs, src) == Some(m.s) && Resolve(Moved(fs, m), src) == Some(m.s) && src in Full(fs)
    && Resolve(fs, dst) == Some(m.d) && Resolve(Moved(fs, m), dst) == Some(m.d) && dst in Full(fs)
    && !Loops(fs, src) && !Loops(fs, dst)
  }

  /** Refreshing both parents is enough exactly if no non-empty directory took the place of an
      empty one, and no link leads to a changed parent another way. */
  ghost predicate Enough(fs: Fs, m: Move, src: Path, dst: Path)
    requires Legal(fs, m)
  {
    var fs' := Moved(fs, m);
    && (!SameSums(fs.dirs[m.s], fs'.dirs[m.s]) ==> OnlyBy(fs, fs', m.s, src, dst))
    && (!SameSums(fs.dirs[m.d], fs'.dirs[m.d]) ==> OnlyBy(fs, fs', m.d, src, dst))
    && !FillsEmpty(fs, m)
  }

  /** The node of a recorded directory says what was on disk, unless it contains itself. */
  lemma RecordedSums(fs: Fs, q: Path)
    requires WellFormed(fs) && q in Full(fs) && !Loops(fs, q)
    ensures Resolve(fs, q).Some? && Full(fs)[q].fileSum == FileSum(Listing(fs, q))
      && Full(fs)[q].children == Subdirs(fs, q)
  {
    FullExact(fs);
    ExactExists(fs, Full(fs), q);
  }

  lemma StaleIff(fs: Fs, fs': Fs, q: Path)
    requires WellFormed(fs) && WellFormed(fs') && LoopsSame(fs, fs') && q in Full(fs)
    requires Resolve(fs', q).Some? && !Loops(fs', q)
    ensures Resolve(fs, q).Some? && (StaleAt(fs', Full(fs), q) <==> !SameSums(Listing(fs, q), Listing(fs', q)))
  {
    RecordedSums(fs, q);
  }

  lemma StaleIsNoLoop(fs: Fs, fs': Fs, q: Path)
    requires WellFormed(fs) && WellFormed(fs') && LoopsSame(fs, fs') && StaleAt(fs', Full(fs), q)
    ensures !Loops(fs', q)
  {
    FullCuts(fs);
  }

  /** What the replaced directory's name leads to afterwards. */
  lemma ReplacedStep(fs: Fs, m: Move, q: Path)
    requires Legal(fs, m) && EndsReplaced(fs, m, q)
    ensures EntryAt(fs.dirs[m.s], m.name).value.Folder?
    ensures Resolve(Moved(fs, m), q) == Some(EntryAt(fs.dirs[m.s], m.name).value.id)
  {
    var e, fs' := EntryAt(fs.dirs[m.s], m.name).value, Moved(fs, m);
    Split(q);
    ResolveStep(fs', Parent(q), Last(q));
    assert Renamed(e, m.newName) in fs'.dirs[m.d];
    FindUnique(fs'.dirs[m.d], Renamed(e, m.newName));
  }

  lemma StaleEnough(fs: Fs, m: Move, src: Path, dst: Path, q: Path)
    requires Legal(fs, m) && Between(fs, m, src, dst)
    requires LoopsSame(fs, Moved(fs, m)) && Enough(fs, m, src, dst) && StaleAt(Moved(fs, m), Full(fs), q)
    ensures q <= src || q <= dst
  {
    var fs' := Moved(fs, m);
    StaleIsNoLoop(fs, fs', q);
    StaleIff(fs, fs', q);
    PathBoth(fs, m, q);
    if EndsReplaced(fs, m, q) {
      ReplacedStep(fs, m, q);
    }
  }

  lemma RecordedChild(fs: Fs, p: Path, e: Entry)
    requires WellFormed(fs) && p in Full(fs) && !Loops(fs, p) && Resolve(fs, p).Some?
    requires e in Listing(fs, p) && e.Folder?
    ensures p + [e.name] in Full(fs) && Resolve(fs, p + [e.name]) == Some(e.id)
  {
    FullExact(fs);
    ExactExists(fs, Full(fs), p);
    ResolveChild(fs, p, e);
    ResolveNames(fs, p, e.name);
    var i :| 0 <= i < |Subdirs(fs, p)| && Subdirs(fs, p)[i] == e.name;
    assert p + [Subdirs(fs, p)[i]] in Full(fs);
  }

  /** No way leads through an empty directory. */
  lemma NothingInside(fs: Fs, q: Path, p: Path)
    requires WellFormed(fs) && Resolve(fs, q).Some? && Listing(fs, q) == [] && q <= p && Resolve(fs, p).Some?
    ensures p == q
  {
    if |q| < |p| {
      var c := p[..|q| + 1];
      assert c == q + [p[|q|]];
      ResolveNames(fs, q, p[|q|]);
      UnresolvedBelow(fs, c, p);
      assert false;
    }
  }

  /** The name of the replaced directory, recorded and empty. */
  lemma ReplacedPath(fs: Fs, m: Move, src: Path, dst: Path) returns (q: Path)
    requires Legal(fs, m) && Between(fs, m, src, dst) && Replaces(fs, m)
    ensures q in Full(fs) && EndsReplaced(fs, m, q) && !Loops(fs, q) && !(q <= src) && !(q <= dst)
  {
    var t := EntryAt(Emptied(fs, m), m.newName).value;
    q := dst + [m.newName];
    assert Parent(q) == dst && Last(q) == m.newName;
    RecordedChild(fs, dst, t);
    if q <= src {
      NothingInside(fs, q, src);
      assert false;
    }
    if Loops(fs, q) {
      CutIsInexact(fs, q);
      assert false;
    }
  }

  /** What a move makes stale is at or above the two parents exactly if Enough says so. */
  lemma MoveStaleIff(fs: Fs, m: Move, src: Path, dst: Path)
    requires Legal(fs, m) && Between(fs, m, src, dst)
    requires LoopsSame(fs, Moved(fs, m))
    ensures DirectoryMap.StaleWithinBoth(Moved(fs, m), Full(fs), src, dst) <==> Enough(fs, m, src, dst)
  {
    var fs' := Moved(fs, m);
    if Enough(fs, m, src, dst) {
      forall q | StaleAt(fs', Full(fs), q) ensures q <= src || q <= dst {
        StaleEnough(fs, m, src, dst, q);
      }
    } else if FillsEmpty(fs, m) {
      var q := ReplacedPath(fs, m, src, dst);
      ReplacedStep(fs, m, q);
      StaleIff(fs, fs', q);
      assert StaleAt(fs', Full(fs), q);
    } else {
      var x := if !SameSums(fs.dirs[m.s], fs'.dirs[m.s]) && !OnlyBy(fs, fs', m.s, src, dst) then m.s else m.d;
      var q :| q in Full(fs) && Resolve(fs, q) == Some(x) && Resolve(fs', q) == Some(x) && !Loops(fs', q)
        && !(q <= src || q <= dst);
      StaleIff(fs, fs', q);
      assert StaleAt(fs', Full(fs), q);
    }
  }

  ghost predicate Known(fs: Fs, m: Move, p: Path)
    requires Legal(fs, m)
  {
    DirectoryMap.Refreshable(fs, Moved(fs, m), p)
  }

  /** The driver moves and refreshes: the cache is then what a full recomputation would give
      exactly if refreshing the two parents is enough. */
  method MoveAndRefresh(sizes: DirectoryMap, fs: Fs, m: Move, src: Path, dst: Path) returns (ok: bool)
    requires Legal(fs, m) && LoopsSame(fs, Moved(fs, m)) && !sizes.dirty && sizes.data == Full(fs)
    modifies sizes
    ensures sizes.dirty == !ok && (fs.broken == {} ==> ok)
    ensures Between(fs, m, src, dst) && Known(fs, m, src) && Known(fs, m, dst) ==>
      (sizes.data == Full(Moved(fs, m)) <==> Enough(fs, m, src, dst))
  {
    ok := sizes.RefreshAfterMove(fs, Moved(fs, m), src, dst);
    if Between(fs, m, src, dst) {
      MoveStaleIff(fs, m, src, dst);
    }
  }

  /*** two disks ***/

  /** The directories x and y; x holds a directory with a file of five bytes, y an empty one of
      the same name. */
  const FULL_AND_EMPTY := Fs(map[
    0 := [Folder("x", 1, false), Folder("y", 2, false)],
    1 := [Folder("a", 3, false)], 2 := [Folder("a", 4, false)],
    3 := [File("f", 5)], 4 := []], 0, {})

  const OVER_EMPTY := Move(1, "a", 2, "a")

  lemma OverEmptyIsLegal()
    ensures Legal(FULL_AND_EMPTY, OVER_EMPTY) && Emptied(FULL_AND_EMPTY, OVER_EMPTY) == [Folder("a", 4, false)]
  {
    var fs, m := FULL_AND_EMPTY, OVER_EMPTY;
    assert fs.dirs[1][1..] == [] && fs.dirs[2][1..] == [];
    assert Without(fs.dirs[1], "a") == [] && Without(fs.dirs[2], "a") == [];
    MovedWellFormed(fs, m);
  }

  /** Both parents stay where they are. */
  lemma OverEmptyIsBetween()
    requires Legal(FULL_AND_EMPTY, OVER_EMPTY)
    ensures Between(FULL_AND_EMPTY, OVER_EMPTY, ["x"], ["y"])
  {
    var fs, m := FULL_AND_EMPTY, OVER_EMPTY;
    OverEmptyIsLegal();
    OnTop(fs, "x", 1);
    OnTop(fs, "y", 2);
    OnTop(Moved(fs, m), "x", 1);
    OnTop(Moved(fs, m), "y", 2);
  }

  /** The directory takes the place of the empty one: refreshing x and y is not enough. */
  lemma OverEmptyIsStale()
    ensures Legal(FULL_AND_EMPTY, OVER_EMPTY)
    ensures Between(FULL_AND_EMPTY, OVER_EMPTY, ["x"], ["y"]) && !Enough(FULL_AND_EMPTY, OVER_EMPTY, ["x"], ["y"])
  {
    OverEmptyIsLegal();
    OverEmptyIsBetween();
    OverEmptyFills();
  }

  lemma OverEmptyFills()
    requires Legal(FULL_AND_EMPTY, OVER_EMPTY)
    ensures FillsEmpty(FULL_AND_EMPTY, OVER_EMPTY)
  {
    var fs, m := FULL_AND_EMPTY, OVER_EMPTY;
    assert EntryAt(fs.dirs[1], "a") == Some(Folder("a", 3, false)) by {
      EntryUnique(fs.dirs[1], Folder("a", 3, false));
    }
    assert EntryAt(Emptied(fs, m), "a") == Some(Folder("a", 4, false)) by {
      EntryUnique(fs.dirs[2], Folder("a", 4, false));
    }
    assert Replaces(fs, m);
    assert Moved(fs, m).dirs[3] == fs.dirs[3];
    SumsDiffer();
  }

  lemma SumsDiffer()
    ensures !SameSums([], [File("f", 5)])
  {
    assert [File("f", 5)][1..] == [];
  }

  /** A directory at the top that is not the top itself. */
  lemma OnTop(fs: Fs, n: string, id: nat)
    requires WellFormed(fs) && Folder(n, id, false) in fs.dirs[fs.top] && id != fs.top
    ensures Resolve(fs, [n]) == Some(id) && [n] in Full(fs) && !Loops(fs, [n])
  {
    var p: Path := [n];
    assert [] + [n] == p && Parent(p) == [];
    ResolveChild(fs, [], Folder(n, id, false));
    Reached(fs, [], fs.top, {fs.top}, p);
  }

  /** A directory with a file and a link back to the top. */
  const LOOPED := Fs(map[0 := [Folder("a", 1, false)], 1 := [File("f", 5), Folder("up", 0, true)]], 0, {})

  /** The link is recorded, and contains itself. */
  lemma LoopedIsCut()
    ensures WellFormed(LOOPED) && LOOPED.broken == {} && Loops(LOOPED, ["a", "up"]) && ["a", "up"] in Full(LOOPED)
  {
    var fs := LOOPED;
    var a: Path, up: Path := ["a"], ["a", "up"];
    LoopedLeads(a, up);
    assert Leading(fs, []) == {0} && Leading(fs, a) == {0, 1};
    Reached(fs, [], 0, {0}, up);
  }

  lemma LoopedLeads(a: Path, up: Path)
    requires a == ["a"] && up == ["a", "up"]
    ensures WellFormed(LOOPED) && Parent(a) == [] && Parent(up) == a
    ensures Resolve(LOOPED, []) == Some(0) && Resolve(LOOPED, a) == Some(1) && Resolve(LOOPED, up) == Some(0)
  {
    assert [] + ["a"] == a && a + ["up"] == up;
    ResolveChild(LOOPED, [], Folder("a", 1, false));
    ResolveChild(LOOPED, a, Folder("up", 0, true));
  }
}

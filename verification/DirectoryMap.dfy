/** The directory size cache of the local driver. */
module DirectoryMap {
  import opened Wrappers
  import opened DirSpec
  import opened DirWalk
  import opened DirExact

  function Stat(fs: Fs, p: Path): (r: Option<nat>)
    requires WellFormed(fs)
    ensures r.Some? ==> r.value in fs.dirs && Resolve(fs, p) == r && p !in fs.broken
  {
    if p in fs.broken then None else Resolve(fs, p)
  }

  function ReadDir(fs: Fs, p: Path): (r: Option<seq<Entry>>)
    requires WellFormed(fs)
    ensures r.Some? <==> p !in fs.broken && Resolve(fs, p).Some?
    ensures r.Some? ==> r.value == fs.dirs[Resolve(fs, p).value]
  {
    match Stat(fs, p)
    case None => None
    case Some(id) => Some(fs.dirs[id])
  }

  class DirectoryMap {
    var data: Sizes
    var dirty: bool

    constructor ()
      ensures data == map[] && !dirty
    {
      data, dirty := map[], false;
    }

    /*** calculateDirSizeLocked ***/

    /** What one round learns about a directory: the bytes of its files, the sizes of
        subdirectories already known, and which ones remain to be visited. */
    method Scan(fs: Fs, p: Path, es: seq<Entry>, anc: set<nat>)
      returns (ok: bool, fileSum: nat, directorySum: nat, children: seq<string>, queue: seq<Task>)
      requires WellFormed(fs) && ReadDir(fs, p) == Some(es) && NoneBelow(data, p)
      modifies `data
      ensures ok <==> LinksReadable(fs, p, Folders(es))
      ensures ok ==> data == old(data) + Cuts(p, Folders(es), anc)
      ensures ok ==> fileSum == FileSum(es) && directorySum == 0 && children == Names(Folders(es))
      ensures ok ==> queue == Queue(p, Folders(es), anc)
    {
      ScanAllIs(fs, p, anc, [], es);
      assert AccOf(p, anc, []) == Acc(0, [], [], map[]) && [] + es == es;
      ghost var cuts;
      assert Distinct(es);
      assert Fresh(data, p, es, 0);
      ok, fileSum, directorySum, children, queue, cuts := ScanLoop(fs, p, es, anc);
    }

    method ScanLoop(fs: Fs, p: Path, es: seq<Entry>, anc: set<nat>)
      returns (ok: bool, fileSum: nat, directorySum: nat, children: seq<string>, queue: seq<Task>, ghost cuts: Sizes)
      requires WellFormed(fs) && ReadDir(fs, p) == Some(es) && Distinct(es) && Fresh(data, p, es, 0)
      modifies `data
      ensures ScanAll(fs, p, anc, Acc(0, [], [], map[]), es) ==
        if ok then Some(Acc(fileSum, children, queue, cuts)) else None
      ensures ok ==> data == old(data) + cuts && directorySum == 0
    {
      ok, fileSum, directorySum, children, queue := true, 0, 0, [], [];
      cuts := map[];
      for i := 0 to |es|
        invariant ok && directorySum == 0 && data == old(data) + cuts
        invariant ScanAll(fs, p, anc, Acc(fileSum, children, queue, cuts), es[i..]) ==
          ScanAll(fs, p, anc, Acc(0, [], [], map[]), es)
        invariant Fresh(data, p, es, i)
      {
        var f := es[i];
        assert es[i..][0] == f && es[i..][1..] == es[i + 1..];
        FreshAfter(data, p, es, i);
        if f.Folder? {
          LinkStat(fs, p, es, i);
          var entered, known, visits := ScanFolder(fs, p + [f.name], f, anc);
          if !entered {
            return false, 0, 0, [], [], cuts;
          }
          directorySum := directorySum + known;
          assert queue + [] == queue;
          queue := queue + visits;
          children := children + [f.name];
          cuts := if f.id in anc then cuts[p + [f.name] := Node(0, 0, [])] else cuts;
        } else {
          fileSum := fileSum + f.size;
        }
      }
    }

    /** No entry from the i-th on has been entered. */
    static ghost predicate Fresh(d: Sizes, p: Path, es: seq<Entry>, i: int)
      requires 0 <= i <= |es|
    {
      forall j :: i <= j < |es| ==> p + [es[j].name] !in d
    }

    lemma FreshAfter(d: Sizes, p: Path, es: seq<Entry>, i: int)
      requires 0 <= i < |es| && Distinct(es) && Fresh(d, p, es, i)
      ensures p + [es[i].name] !in d
      ensures Fresh(d, p, es, i + 1) && Fresh(d[p + [es[i].name] := Node(0, 0, [])], p, es, i + 1)
    {
      forall j | i + 1 <= j < |es| ensures p + [es[j].name] != p + [es[i].name] {
        assert (p + [es[j].name])[|p|] == es[j].name;
        assert (p + [es[i].name])[|p|] == es[i].name;
      }
    }

    /** One subdirectory: its size if it is known, an empty node if it is its own
        ancestor, a visit otherwise. */
    method ScanFolder(fs: Fs, fullpath: Path, f: Entry, anc: set<nat>)
      returns (ok: bool, known: nat, visits: seq<Task>)
      requires WellFormed(fs) && f.Folder?
      modifies `data
      ensures fullpath in old(data) ==> ok && data == old(data) && known == Size(data[fullpath]) && visits == []
      ensures fullpath !in old(data) ==> (ok <==> !(f.link && Stat(fs, fullpath).None?))
      ensures fullpath !in old(data) && ok ==> known == 0
      ensures fullpath !in old(data) && ok ==>
        visits == if f.id in anc then [] else [Visit(fullpath, f.id, anc + {f.id})]
      ensures fullpath !in old(data) && ok ==>
        data == if f.id in anc then old(data)[fullpath := Node(0, 0, [])] else old(data)
    {
      if fullpath in data {
        return true, Size(data[fullpath]), [];
      }
      if f.link && Stat(fs, fullpath).None? {
        return false, 0, [];
      }
      if f.id in anc {
        data := data[fullpath := Node(0, 0, [])];
        return true, 0, [];
      }
      return true, 0, [Visit(fullpath, f.id, anc + {f.id})];
    }

    lemma LinkStat(fs: Fs, p: Path, es: seq<Entry>, i: int)
      requires WellFormed(fs) && ReadDir(fs, p) == Some(es) && 0 <= i < |es| && es[i].Folder?
      ensures Stat(fs, p + [es[i].name]).None? <==> p + [es[i].name] in fs.broken
    {
      ResolveChild(fs, p, es[i]);
    }

    /** Adds up the nodes of the listed children. */
    method SumChildren(p: Path, names: seq<string>) returns (r: Option<nat>)
      ensures r == if ChildrenIn(data, p, names) then Some(ChildSum(data, p, names)) else None
    {
      var sum := 0;
      for i := 0 to |names|
        invariant forall j :: 0 <= j < i ==> p + [names[j]] in data
        invariant ChildrenIn(data, p, names) ==>
          ChildrenIn(data, p, names[i..]) && sum + ChildSum(data, p, names[i..]) == ChildSum(data, p, names)
      {
        if p + [names[i]] !in data {
          return None;
        }
        assert names[i..][1..] == names[i + 1..];
        sum := sum + Size(data[p + [names[i]]]);
      }
      return Some(sum);
    }

    /** Enters dirname and everything below it, visiting directories from an explicit
        stack; nothing at or below dirname may have been entered before. */
    method CalculateDirSize(fs: Fs, dirname: Path) returns (r: Option<nat>)
      requires WellFormed(fs) && NoneBelow(data, dirname)
      modifies `data
      ensures Stat(fs, dirname).None? ==> r == None && data == old(data)
      ensures Stat(fs, dirname).Some? ==>
        var id := Stat(fs, dirname).value;
        && (r.Some? <==> Readable(fs, dirname, id, {id}))
        && (r.Some? ==> data == old(data) + Want(fs, dirname, id, {id}) && r.value == Total(fs, id, {id}))
    {
      var rootInfo := Stat(fs, dirname);
      if rootInfo.None? {
        return None;
      }
      var id0 := rootInfo.value;
      var ok := RunStack(fs, Visit(dirname, id0, {id0}));
      LastResult(fs, [], Visit(dirname, id0, {id0}), old(data));
      if !ok {
        return None;
      }
      WantBelow(fs, dirname, id0, {id0});
      if dirname in data {
        return Some(Size(data[dirname]));
      }
      assert false;
    }

    /** Works the stack off, starting from one task. */
    method RunStack(fs: Fs, first: Task) returns (ok: bool)
      requires WellFormed(fs) && StackOk(fs, [] + [first], data)
      modifies `data
      ensures ResultOf(fs, [] + [first], old(data)) == if ok then Some(data) else None
    {
      var stack := [] + [first];
      while |stack| > 0
        invariant StackOk(fs, stack, data) && ResultOf(fs, stack, data) == ResultOf(fs, [] + [first], old(data))
        decreases StackWeight(fs, stack)
      {
        var task := stack[|stack| - 1];
        ghost var full := stack;
        stack := stack[..|stack| - 1];
        assert full == stack + [task];
        var pushed;
        ok, pushed := Round(fs, stack, task);
        if !ok {
          return;
        }
        stack := stack + pushed;
      }
      return true;
    }

    /** Pops one task; what it pushes, and what it enters, leaves the same map to be
        reached with less work. */
    method Round(fs: Fs, ghost base: seq<Task>, task: Task) returns (ok: bool, pushed: seq<Task>)
      requires WellFormed(fs) && StackOk(fs, base + [task], data)
      modifies `data
      ensures !ok ==> ResultOf(fs, base + [task], old(data)) == None
      ensures ok ==> StackOk(fs, base + pushed, data)
      ensures ok ==> ResultOf(fs, base + pushed, data) == ResultOf(fs, base + [task], old(data))
      ensures ok ==> StackWeight(fs, base + pushed) < StackWeight(fs, base + [task])
    {
      pushed := [];
      PopFacts(fs, base, task, data);
      if task.Finish? {
        var sum := SumChildren(task.path, task.children);
        if sum.None? {
          return false, [];
        }
        data := data[task.path := Node(task.fileSum, sum.value, task.children)];
        PoppedOk(fs, base, task, old(data), data);
        return true, [];
      }
      var files := ReadDir(fs, task.path);
      if files.None? {
        UnreadableResult(fs, base, task.path, task.id, task.ancestors, data);
        return false, [];
      }
      ok, pushed := RoundVisit(fs, base, task, files.value);
    }

    method RoundVisit(fs: Fs, ghost base: seq<Task>, task: Task, es: seq<Entry>) returns (ok: bool, pushed: seq<Task>)
      requires WellFormed(fs) && task.Visit? && StackOk(fs, base + [task], data) && ReadDir(fs, task.path) == Some(es)
      modifies `data
      ensures !ok ==> ResultOf(fs, base + [task], old(data)) == None
      ensures ok ==> StackOk(fs, base + pushed, data)
      ensures ok ==> ResultOf(fs, base + pushed, data) == ResultOf(fs, base + [task], old(data))
      ensures ok ==> StackWeight(fs, base + pushed) < StackWeight(fs, base + [task])
    {
      PopFacts(fs, base, task, data);
      var fileSum, directorySum, children, queue;
      ok, fileSum, directorySum, children, queue := Scan(fs, task.path, es, task.ancestors);
      if !ok {
        UnreadableResult(fs, base, task.path, task.id, task.ancestors, old(data));
        return false, [];
      }
      if |queue| > 0 {
        pushed := [Finish(task.path, fileSum, children)] + queue;
        ghost var finish := Finish(task.path, fileSum, children);
        Expanded(fs, base, task.path, task.id, task.ancestors, old(data));
        ExpandedOk(fs, base, task.path, task.id, task.ancestors, old(data));
        PushedWeight(fs, base, task);
        assert base + pushed == base + [finish] + queue;
        return true, pushed;
      }
      LeafResult(fs, base, task.path, task.id, task.ancestors, old(data));
      data := data[task.path := Node(fileSum, directorySum, children)];
      LeafOk(fs, base, task, old(data), Folders(es), data);
      return true, [];
    }

    lemma PopFacts(fs: Fs, base: seq<Task>, task: Task, d: Sizes)
      requires WellFormed(fs) && StackOk(fs, base + [task], d)
      ensures TaskOk(fs, task, d) && (task.Visit? ==> task.id in fs.dirs) && TasksOk(fs, base) && base + [] == base
      ensures StackWeight(fs, base) < StackWeight(fs, base + [task])
      ensures ResultOf(fs, base + [task], d) ==
        match Effect(fs, task, d) case None => None case Some(d') => ResultOf(fs, base, d')
    {
      var full := base + [task];
      assert full[|base|] == task && TaskOk(fs, full[|base|], d);
      assert forall i :: 0 <= i < |base| ==> full[i] == base[i];
      assert full[..|full| - 1] == base;
      LastResult(fs, base, task, d);
    }

    lemma PushedWeight(fs: Fs, base: seq<Task>, task: Task)
      requires WellFormed(fs) && task.Visit? && TasksOk(fs, base) && task.id in fs.dirs
      ensures var folders := Folders(fs.dirs[task.id]);
        var finish := Finish(task.path, FileSum(fs.dirs[task.id]), Names(folders));
        && TasksOk(fs, base + [task]) && TasksOk(fs, base + [finish] + Queue(task.path, folders, task.ancestors))
        && StackWeight(fs, base + [finish] + Queue(task.path, folders, task.ancestors)) < StackWeight(fs, base + [task])
    {
      var folders := Folders(fs.dirs[task.id]);
      var finish := Finish(task.path, FileSum(fs.dirs[task.id]), Names(folders));
      FoldersInFs(fs, task.id);
      FinishWeight(fs, base, finish.path, finish.fileSum, finish.children);
      QueueWeight(fs, base + [finish], task.path, folders, task.ancestors);
      var full := base + [task];
      assert full[..|full| - 1] == base;
    }

    lemma FinishWeight(fs: Fs, base: seq<Task>, p: Path, fileSum: nat, children: seq<string>)
      requires WellFormed(fs) && TasksOk(fs, base)
      ensures TasksOk(fs, base + [Finish(p, fileSum, children)])
      ensures StackWeight(fs, base + [Finish(p, fileSum, children)]) == StackWeight(fs, base) + 1
    {
      var s := base + [Finish(p, fileSum, children)];
      assert s[..|s| - 1] == base;
    }

    lemma LeafOk(fs: Fs, base: seq<Task>, t: Task, d: Sizes, folders: seq<Entry>, d': Sizes)
      requires WellFormed(fs) && t.Visit? && StackOk(fs, base + [t], d)
      requires forall i :: 0 <= i < |folders| ==> folders[i].Folder?
      requires d'.Keys <= (d + Cuts(t.path, folders, t.ancestors)).Keys + {t.path}
      ensures StackOk(fs, base, d')
    {
      CutsUnder(t.path, folders, t.ancestors);
      PoppedOk(fs, base, t, d, d');
    }

    /*** deleteDirNodeLocked ***/

    /** Every recorded directory strictly below p is listed by its recorded parent. */
    static ghost predicate TreeBelow(d: Sizes, p: Path) {
      forall q :: q in d && p <= q && q != p ==> Parent(q) in d && Last(q) in d[Parent(q)].children
    }

    /** Drops the node of dirname and of everything recorded below it, and nothing else. */
    method DeleteDirNode(dirname: Path)
      requires TreeBelow(data, dirname)
      modifies `data
      ensures data == map k | k in old(data) && !(dirname <= k) :: old(data)[k]
    {
      var stack := [dirname];
      assert stack[0] == dirname;
      while |stack| > 0
        invariant forall k :: k in data ==> k in old(data) && data[k] == old(data)[k]
        invariant forall k :: k in old(data) && !(dirname <= k) ==> k in data
        invariant forall i :: 0 <= i < |stack| ==> dirname <= stack[i]
        invariant forall q :: q in data && dirname <= q ==> Pending(data, dirname, stack, q)
        decreases |data|, |stack|
      {
        var current := stack[|stack| - 1];
        ghost var was, full := data, stack;
        stack := stack[..|stack| - 1];
        assert full == stack + [current];
        if current in data {
          stack := PushChildren(stack, current, data[current].children);
          data := data - {current};
          assert data.Keys == was.Keys - {current};
        }
        forall q | q in data && dirname <= q ensures Pending(data, dirname, stack, q) {
          assert Pending(was, dirname, full, q);
          StillPending(was, data, dirname, full, stack, current, q);
        }
      }
      forall q | q in data ensures !(dirname <= q) {
        NonePending(data, dirname, q);
      }
    }

    static method PushChildren(stack0: seq<Path>, current: Path, children: seq<string>) returns (stack: seq<Path>)
      ensures stack == stack0 + Below(current, children)
    {
      stack := stack0;
      for i := 0 to |children|
        invariant stack == stack0 + Below(current, children[..i])
      {
        stack := stack + [current + [children[i]]];
        assert children[..i + 1] == children[..i] + [children[i]];
      }
      assert children[..|children|] == children;
    }

    static ghost function Below(p: Path, names: seq<string>): (r: seq<Path>)
      ensures |r| == |names| && forall i :: 0 <= i < |r| ==> r[i] == p + [names[i]]
    {
      seq(|names|, i requires 0 <= i < |names| => p + [names[i]])
    }

    /** A node still to be dropped is on the stack, or listed by one that is still there. */
    static ghost predicate Pending(d: Sizes, top: Path, stack: seq<Path>, q: Path) {
      || (exists i :: 0 <= i < |stack| && stack[i] == q)
      || (q != [] && top <= Parent(q) && Parent(q) in d && Last(q) in d[Parent(q)].children)
    }

    lemma StillPending(d: Sizes, d': Sizes, top: Path, full: seq<Path>, stack: seq<Path>, current: Path, q: Path)
      requires full != [] && full[|full| - 1] == current && q in d' && Pending(d, top, full, q)
      requires if current in d then
        d' == d - {current} && stack == full[..|full| - 1] + Below(current, d[current].children)
               else d' == d && stack == full[..|full| - 1]
      ensures Pending(d', top, stack, q)
    {
      if i :| 0 <= i < |full| && full[i] == q {
        if i < |full| - 1 {
          assert stack[i] == q;
        }
      } else if Parent(q) == current {
        var j :| 0 <= j < |d[current].children| && d[current].children[j] == Last(q);
        Split(q);
        assert stack[|full| - 1 + j] == q;
      }
    }

    lemma {:induction false} NonePending(d: Sizes, top: Path, q: Path)
      requires q in d && forall x :: x in d && top <= x ==> Pending(d, top, [], x)
      ensures !(top <= q)
      decreases |q|
    {
      if top <= q {
        assert Pending(d, top, [], q);
        NonePending(d, top, Parent(q));
        assert false;
      }
    }

    /*** recalculateDirSizeLocked and updateDirSizeLocked ***/

    /** Starts afresh; links may form cycles. */
    method RecalculateDirSize(fs: Fs) returns (ok: bool)
      requires WellFormed(fs)
      modifies this
      ensures ok <==> Readable(fs, [], fs.top, {fs.top})
      ensures ok ==> data == Full(fs)
      ensures dirty == !ok
    {
      data := map[];
      assert Stat(fs, []) == if [] in fs.broken then None else Some(fs.top);
      var r := CalculateDirSize(fs, []);
      dirty := r.None?;
      ok := r.Some?;
      assert ok ==> data == map[] + Full(fs);
    }

    lemma ChildrenKept(fs: Fs, d: Sizes, d': Sizes, p: Path)
      requires WellFormed(fs) && Resolve(fs, p).Some? && Shrunk(fs, d, d') && ChildrenIn(d, p, Subdirs(fs, p))
      ensures ChildrenIn(d', p, Subdirs(fs, p))
      ensures ChildSum(d', p, Subdirs(fs, p)) == ChildSum(d, p, Subdirs(fs, p))
    {
      var names := Subdirs(fs, p);
      forall i | 0 <= i < |names| ensures p + [names[i]] in d' && d'[p + [names[i]]] == d[p + [names[i]]] {
        ResolveNames(fs, p, names[i]);
      }
      ChildSumSame(d, d', p, names);
    }

    /** The size of one subdirectory, computed if it is not recorded. */
    method EnsureChild(fs: Fs, p: Path, f: Entry, ghost D: set<Path>) returns (r: Option<nat>)
      requires WellFormed(fs) && Sound(fs, data, D) && p in D && p in data
      requires f.Folder? && Resolve(fs, p + [f.name]) == Some(f.id)
      modifies `data
      ensures r.Some? ==> Sound(fs, data, D) && p + [f.name] in data && r.value == Size(data[p + [f.name]])
      ensures r.Some? ==> Grown(old(data), data)
      ensures p + [f.name] in old(data) ==> data == old(data)
      ensures r.Some? && CutsOk(fs, old(data)) && (p + [f.name] !in old(data) ==> EntersOk(fs, p + [f.name])) ==>
        CutsOk(fs, data)
      ensures fs.broken == {} ==> r.Some?
    {
      var fullpath := p + [f.name];
      if fullpath in data {
        return Some(Size(data[fullpath]));
      }
      NothingBelow(fs, data, D, fullpath);
      assert Parent(fullpath) == p;
      WantSound(fs, data, D, fullpath, f.id, []);
      WantBelow(fs, fullpath, f.id, {f.id});
      if fs.broken == {} {
        AllReadable(fs, fullpath, f.id, {f.id});
      }
      r := CalculateDirSize(fs, fullpath);
    }

    /** Nothing recorded has changed or gone. */
    static ghost predicate Grown(d: Sizes, d': Sizes) {
      forall k :: k in d ==> k in d' && d'[k] == d[k]
    }

    lemma Grow(d: Sizes, d': Sizes, p: Path, names: seq<string>)
      requires ChildrenIn(d, p, names) && Grown(d, d')
      ensures ChildrenIn(d', p, names) && ChildSum(d', p, names) == ChildSum(d, p, names)
    {
      ChildSumSame(d, d', p, names);
    }

    method AddChild(fs: Fs, p: Path, f: Entry, ghost D: set<Path>, ghost children: seq<string>, ghost directorySum: nat)
      returns (r: Option<nat>)
      requires WellFormed(fs) && Sound(fs, data, D) && p in D && p in data
      requires f.Folder? && Resolve(fs, p + [f.name]) == Some(f.id)
      requires ChildrenIn(data, p, children) && directorySum == ChildSum(data, p, children)
      modifies `data
      ensures r.Some? ==> Sound(fs, data, D) && Grown(old(data), data)
      ensures r.Some? ==>
        ChildrenIn(data, p, children + [f.name]) && directorySum + r.value == ChildSum(data, p, children + [f.name])
      ensures p + [f.name] in old(data) ==> data == old(data)
      ensures r.Some? && CutsOk(fs, old(data)) && (p + [f.name] !in old(data) ==> EntersOk(fs, p + [f.name])) ==>
        CutsOk(fs, data)
      ensures fs.broken == {} ==> r.Some?
    {
      r := EnsureChild(fs, p, f, D);
      if r.Some? {
        Grow(old(data), data, p, children);
        ChildSumSnoc(data, p, children, f.name);
      }
    }

    lemma NamedIn(d: Sizes, p: Path, es: seq<Entry>, f: Entry)
      requires f in es && f.Folder?
      ensures ChildrenIn(d, p, Names(Folders(es))) ==> p + [f.name] in d
    {
      FoldersComplete(es, f);
      var i :| 0 <= i < |Folders(es)| && Folders(es)[i] == f;
      assert Names(Folders(es))[i] == f.name;
    }

    method Reread(fs: Fs, p: Path, es: seq<Entry>, ghost D: set<Path>)
      returns (ok: bool, fileSum: nat, directorySum: nat, children: seq<string>)
      requires WellFormed(fs) && Sound(fs, data, D) && p in D && p in data && ReadDir(fs, p) == Some(es)
      modifies `data
      ensures ok ==> Sound(fs, data, D) && Grown(old(data), data)
      ensures ok ==> fileSum == FileSum(es) && children == Names(Folders(es))
      ensures ok ==> ChildrenIn(data, p, children) && directorySum == ChildSum(data, p, children)
      ensures ChildrenIn(old(data), p, Names(Folders(es))) ==> data == old(data)
      ensures ok && CutsOk(fs, old(data)) && TameAt(fs, old(data), p) ==> CutsOk(fs, data)
      ensures fs.broken == {} ==> ok
    {
      ok, fileSum, directorySum, children := true, 0, 0, [];
      TallyAllIs(Tally(0, []), es);
      assert [] + Names(Folders(es)) == Names(Folders(es));
      for i := 0 to |es|
        invariant ok && Sound(fs, data, D) && Grown(old(data), data)
        invariant TallyAll(Tally(fileSum, children), es[i..]) == TallyAll(Tally(0, []), es)
        invariant ChildrenIn(data, p, children) && directorySum == ChildSum(data, p, children)
        invariant ChildrenIn(old(data), p, Names(Folders(es))) ==> data == old(data)
        invariant CutsOk(fs, old(data)) && TameAt(fs, old(data), p) ==> CutsOk(fs, data)
      {
        var f := es[i];
        assert es[i..][0] == f && es[i..][1..] == es[i + 1..];
        if f.Folder? {
          ResolveChild(fs, p, f);
          NamedIn(old(data), p, es, f);
          var size := AddChild(fs, p, f, D, children, directorySum);
          if size.None? {
            return false, 0, 0, [];
          }
          directorySum := directorySum + size.value;
          children := children + [f.name];
        } else {
          fileSum := fileSum + f.size;
        }
      }
    }

    /** Drops the subdirectories that the fresh listing no longer has. */
    method DropGone(fs: Fs, p: Path, node: Node, children: seq<string>, ghost D: set<Path>)
      requires WellFormed(fs) && Sound(fs, data, D) && p in D && p in data && data[p] == node
      requires Resolve(fs, p).Some? && children == Subdirs(fs, p) && ChildrenIn(data, p, children)
      modifies `data
      ensures SoundBut(fs, data, D, p) && Shrunk(fs, old(data), data)
      ensures forall c :: c in node.children && c !in children ==> p + [c] !in data
      ensures node.children == children ==> data == old(data)
    {
      for i := 0 to |node.children|
        invariant SoundBut(fs, data, D, p) && Shrunk(fs, old(data), data)
        invariant forall j :: 0 <= j < i && node.children[j] !in children ==> p + [node.children[j]] !in data
        invariant node.children == children ==> data == old(data)
      {
        var child := node.children[i];
        if child !in children {
          ResolveNames(fs, p, child);
          GoneTree(fs, data, D, p, child);
          DropSound(fs, data, D, p, child);
          ghost var was := data;
          DeleteDirNode(p + [child]);
          ShrunkBy(fs, was, data, p + [child]);
        }
      }
    }

    /** Nothing that exists on disk has been dropped, and nothing has been added. */
    static ghost predicate Shrunk(fs: Fs, d: Sizes, d': Sizes)
      requires WellFormed(fs)
    {
      && (forall k :: k in d' ==> k in d && d'[k] == d[k])
      && (forall k :: k in d && Resolve(fs, k).Some? ==> k in d')
    }

    lemma ShrunkBy(fs: Fs, d: Sizes, d': Sizes, gone: Path)
      requires WellFormed(fs) && Resolve(fs, gone).None?
      requires d' == map k | k in d && !(gone <= k) :: d[k]
      ensures Shrunk(fs, d, d')
    {
      forall k | k in d && Resolve(fs, k).Some? ensures k in d' {
        if gone <= k {
          UnresolvedBelow(fs, gone, k);
          assert false;
        }
      }
    }

    lemma GoneTree(fs: Fs, d: Sizes, D: set<Path>, p: Path, c: string)
      requires WellFormed(fs) && SoundBut(fs, d, D, p) && Resolve(fs, p + [c]).None?
      ensures TreeBelow(d, p + [c])
    {
      forall q | q in d && p + [c] <= q && q != p + [c] ensures Parent(q) in d && Last(q) in d[Parent(q)].children {
        assert SoundAt(fs, d, D, q);
        UnresolvedBelow(fs, p + [c], q);
      }
    }

    /** Re-reads one directory: new subdirectories are computed, vanished ones dropped,
        known ones trusted. */
    method UpdateDirSize(fs: Fs, dirname: Path, ghost D: set<Path>) returns (r: Option<nat>)
      requires WellFormed(fs) && Sound(fs, data, D) && dirname in D
      modifies `data
      ensures r.Some? ==> LocalExact(fs, data, dirname) && Sound(fs, data, NextSuspects(D, dirname))
      ensures r.Some? ==> forall q :: q in old(data) && Resolve(fs, q).Some? && q != dirname ==>
        q in data && data[q] == old(data)[q]
      ensures LocalExact(fs, old(data), dirname) ==> data == old(data)
      ensures r.Some? ==> r.value == Size(data[dirname])
      ensures r.Some? && CutsOk(fs, old(data)) && TameAt(fs, old(data), dirname) ==> CutsOk(fs, data)
      ensures fs.broken == {} && dirname in old(data) && Resolve(fs, dirname).Some? ==> r.Some?
    {
      if dirname !in data {
        return None;
      }
      var node := data[dirname];
      var files := ReadDir(fs, dirname);
      if files.None? {
        return None;
      }
      var ok, fileSum, directorySum, children := Reread(fs, dirname, files.value, D);
      if !ok {
        return None;
      }
      WriteNode(fs, dirname, node, Node(fileSum, directorySum, children), D);
      r := Some(fileSum + directorySum);
    }

    /** Drops what vanished and writes the directory's node. */
    method WriteNode(fs: Fs, p: Path, node: Node, node': Node, ghost D: set<Path>)
      requires WellFormed(fs) && Sound(fs, data, D) && p in D && p in data && data[p] == node
      requires Resolve(fs, p).Some? && ChildrenIn(data, p, Subdirs(fs, p))
      requires node' == Node(FileSum(Listing(fs, p)), ChildSum(data, p, Subdirs(fs, p)), Subdirs(fs, p))
      modifies `data
      ensures p in data && data[p] == node' && LocalExact(fs, data, p) && Sound(fs, data, NextSuspects(D, p))
      ensures forall q :: q in old(data) && Resolve(fs, q).Some? && q != p ==> q in data && data[q] == old(data)[q]
      ensures forall q :: q in data && q != p ==> q in old(data) && data[q] == old(data)[q]
      ensures node == node' ==> data == old(data)
    {
      DropGone(fs, p, node, node'.children, D);
      ChildrenKept(fs, old(data), data, p);
      WriteSound(fs, data, D, p);
      data := data[p := node'];
    }

    /*** Refresh ***/

    static predicate Contained(p: Path) {
      p == [] || p[0] != ".."
    }

    /** The directories beside and below dirname that exist keep their nodes. */
    static ghost predicate Undisturbed(fs: Fs, d: Sizes, d': Sizes, dirname: Path)
      requires WellFormed(fs)
    {
      forall q :: q in d && Resolve(fs, q).Some? && !(q <= dirname) ==> q in d' && d'[q] == d[q]
    }

    /** The nodes of the first n directories on the way to p agree with what is on disk. */
    static ghost predicate ExactOnTheWay(fs: Fs, d: Sizes, p: Path, n: nat)
      requires WellFormed(fs) && n <= |p| + 1
    {
      forall k :: 0 <= k < n ==> LocalExact(fs, d, p[..k])
    }

    /** Brings dirname and everything above it up to date. Whatever D is suspected of,
        dirname is no longer suspected afterwards; and unless everything had to be
        recomputed, dirname's node says what is on disk and the nodes of existing
        directories beside and below it are left as they were; nothing changes if it and
        all above it were right. */
    method Refresh(fs: Fs, dirname: Path, ghost D: set<Path>) returns (ok: bool)
      requires WellFormed(fs) && (dirty || Sound(fs, data, D))
      modifies this
      ensures dirty == !ok
      ensures ok ==> [] in data && Sound(fs, data, D - Way(dirname, 0))
      ensures fs.broken == {} ==> ok
      ensures ok && (old(dirty) || CutsOk(fs, old(data))) && Tame(fs, old(data), dirname) ==> CutsOk(fs, data)
      ensures
        fs.broken == {} && !old(dirty) && Contained(dirname) && dirname in old(data) && Resolve(fs, dirname).Some? ==>
        Undisturbed(fs, old(data), data, dirname) && LocalExact(fs, data, dirname)
        && (ExactOnTheWay(fs, old(data), dirname, |dirname| + 1) ==> data == old(data))
    {
      if dirty || !Contained(dirname) {
        ok := Restart(fs, D - Way(dirname, 0));
        return;
      }
      ghost var D1 := D - {dirname};
      if dirname !in data {
        NothingBelow(fs, data, D, dirname);
        var r := CalculateDirSize(fs, dirname);
        if r.None? || (dirname != [] && Parent(dirname) !in data) {
          ok := Restart(fs, D - Way(dirname, 0));
          return;
        }
        WantBelow(fs, dirname, Resolve(fs, dirname).value, {Resolve(fs, dirname).value});
        EnteredSound(fs, old(data), D, dirname);
      } else {
        SoundMore(fs, data, D, D + {dirname});
        var r := UpdateDirSize(fs, dirname, D + {dirname});
        if r.None? {
          ok := Restart(fs, D - Way(dirname, 0));
          return;
        }
        SuspectsUp(fs, data, D, D1, dirname);
      }
      ghost var read := data;
      assert dirname[..|dirname|] == dirname;
      ok := Climb(fs, dirname, D1);
      assert D1 - Way(dirname, 0) == D - Way(dirname, 0);
      if fs.broken == {} && LocalExact(fs, read, dirname) {
        StillExact(fs, read, data, dirname);
      }
    }

    lemma StillExact(fs: Fs, d: Sizes, d': Sizes, p: Path)
      requires WellFormed(fs) && LocalExact(fs, d, p) && Undisturbed(fs, d, d', p) && p in d' && d'[p] == d[p]
      ensures LocalExact(fs, d', p)
    {
      forall i | 0 <= i < |d[p].children|
        ensures p + [d[p].children[i]] in d' && d'[p + [d[p].children[i]]] == d[p + [d[p].children[i]]]
      {
        assert p + [Subdirs(fs, p)[i]] in d;
        ResolveNames(fs, p, d[p].children[i]);
      }
      LocalExactSame(fs, d, d', p);
    }

    /** Full recomputation, whose result nothing is suspected of. */
    method Restart(fs: Fs, ghost D: set<Path>) returns (ok: bool)
      requires WellFormed(fs)
      modifies this
      ensures dirty == !ok
      ensures ok ==> [] in data && Sound(fs, data, D) && data == Full(fs) && CutsOk(fs, data)
      ensures fs.broken == {} ==> ok
    {
      dirty := true;
      FullExact(fs);
      FullCuts(fs);
      if fs.broken == {} {
        AllReadable(fs, [], fs.top, {fs.top});
      }
      ok := RecalculateDirSize(fs);
      if ok {
        SoundMore(fs, data, {}, D);
      }
    }

    lemma SuspectsUp(fs: Fs, d: Sizes, D: set<Path>, D1: set<Path>, p: Path)
      requires WellFormed(fs) && Sound(fs, d, NextSuspects(D + {p}, p)) && D1 == D - {p}
      ensures Sound(fs, d, D1 + if p == [] then {} else {Parent(p)})
    {
      SoundMore(fs, d, NextSuspects(D + {p}, p), D1 + if p == [] then {} else {Parent(p)});
    }

    /** A directory that was not recorded has been entered, under a recorded parent. */
    lemma EnteredSound(fs: Fs, d: Sizes, D: set<Path>, p: Path)
      requires WellFormed(fs) && Sound(fs, d, D) && p !in d && Resolve(fs, p).Some?
      requires p != [] ==> Parent(p) in d
      ensures var id := Resolve(fs, p).value;
        && p in d + Want(fs, p, id, {id})
        && Sound(fs, d + Want(fs, p, id, {id}), D - {p} + if p == [] then {} else {Parent(p)})
    {
      var id := Resolve(fs, p).value;
      WantBelow(fs, p, id, {id});
      if p == [] {
        NothingBelow(fs, d, D, p);
        NoneBelowRoot(d);
        assert d + Full(fs) == Full(fs);
        FullExact(fs);
        SoundMore(fs, Full(fs), {}, D - {p} + {});
      } else {
        var D' := D - {p} + {Parent(p)};
        forall q ensures SoundAt(fs, d, D', q) {
          UnrecordedSuspect(fs, d, D, p, q);
        }
        WantSound(fs, d, D', p, id, []);
      }
    }

    lemma NoneBelowRoot(d: Sizes)
      requires NoneBelow(d, [])
      ensures d == map[]
    {
      forall k ensures k !in d {
        var root: Path := [];
        assert root <= k;
      }
    }

    lemma UnrecordedSuspect(fs: Fs, d: Sizes, D: set<Path>, p: Path, q: Path)
      requires WellFormed(fs) && SoundAt(fs, d, D, q) && p !in d && p != []
      ensures SoundAt(fs, d, D - {p} + {Parent(p)}, q)
    {
      if q in d && !Above(D - {p} + {Parent(p)}, q) {
        assert NextSuspects(D, p) == D - {p} + {Parent(p)};
        NotAbove(D, p, q);
      }
    }

    /** Re-reads every directory above dirname, and starts anew if one is not recorded or
        cannot be read. */
    method Climb(fs: Fs, dirname: Path, ghost D1: set<Path>) returns (ok: bool)
      requires WellFormed(fs) && !dirty && Contained(dirname) && dirname in data
      requires Sound(fs, data, D1 + if dirname == [] then {} else {Parent(dirname)}) && dirname !in D1
      modifies this
      ensures dirty == !ok
      ensures ok ==> [] in data && Sound(fs, data, D1 - Way(dirname, 0))
      ensures ok && CutsOk(fs, old(data)) && Tame(fs, old(data), dirname) ==> CutsOk(fs, data)
      ensures fs.broken == {} ==> ok
      ensures fs.broken == {} && Resolve(fs, dirname).Some? ==>
        Undisturbed(fs, old(data), data, dirname) && dirname in data && data[dirname] == old(data)[dirname]
        && (ExactOnTheWay(fs, old(data), dirname, |dirname|) ==> data == old(data))
    {
      ok := Ascend(fs, dirname, D1);
      if !ok {
        ok := Restart(fs, D1 - Way(dirname, 0));
      }
    }

    /** Re-reads the directories above dirname, nearest first, as far as it goes. */
    method Ascend(fs: Fs, dirname: Path, ghost D1: set<Path>) returns (ok: bool)
      requires WellFormed(fs) && Contained(dirname) && dirname in data
      requires Sound(fs, data, D1 + if dirname == [] then {} else {Parent(dirname)}) && dirname !in D1
      modifies `data
      ensures ok ==> [] in data && Sound(fs, data, D1 - Way(dirname, 0))
      ensures ok && CutsOk(fs, old(data)) && Tame(fs, old(data), dirname) ==> CutsOk(fs, data)
      ensures fs.broken == {} && Resolve(fs, dirname).Some? ==>
        ok && Undisturbed(fs, old(data), data, dirname) && dirname in data && data[dirname] == old(data)[dirname]
        && (ExactOnTheWay(fs, old(data), dirname, |dirname|) ==> data == old(data))
    {
      if dirname == [] {
        SoundMore(fs, data, D1 + {}, D1 - Way(dirname, 0));
        return true;
      }
      var current := Parent(dirname);
      ghost var quick := fs.broken == {} && Resolve(fs, dirname).Some?;
      Upwards(fs, data, D1 + {current}, dirname);
      SuspectsOn(fs, data, D1, dirname, |dirname|);
      while Contained(current)
        invariant Contained(current) && current <= dirname && current != dirname
        invariant Sound(fs, data, D1 - Way(dirname, |current| + 1) + {current})
        invariant quick ==> current in data && Resolve(fs, current).Some? && Undisturbed(fs, old(data), data, dirname)
        invariant quick ==> dirname in data && data[dirname] == old(data)[dirname]
        invariant quick && ExactOnTheWay(fs, old(data), dirname, |dirname|) ==> data == old(data)
        invariant forall q :: q in old(data) && Resolve(fs, q).Some? ==> q in data
        invariant CutsOk(fs, old(data)) && Tame(fs, old(data), dirname) ==> CutsOk(fs, data)
        decreases |current|
      {
        if current !in data {
          return false;
        }
        ghost var before := data;
        TameStays(fs, old(data), data, dirname, |current|);
        var r := ClimbStep(fs, dirname, current, D1);
        if r.None? {
          return false;
        }
        UndisturbedStep(fs, old(data), before, data, dirname, current);
        if current == [] {
          return true;
        }
        current := Parent(current);
      }
    }

    /** Re-reads one directory above dirname. */
    method ClimbStep(fs: Fs, ghost dirname: Path, current: Path, ghost D1: set<Path>) returns (r: Option<nat>)
      requires WellFormed(fs) && current <= dirname && current != dirname && current in data
      requires Sound(fs, data, D1 - Way(dirname, |current| + 1) + {current})
      modifies `data
      ensures r.Some? && current != [] && Contained(current) ==>
        Sound(fs, data, D1 - Way(dirname, |Parent(current)| + 1) + {Parent(current)}) && Contained(Parent(current))
        && (Resolve(fs, current).Some? ==> Parent(current) in data && Resolve(fs, Parent(current)).Some?)
      ensures r.Some? && current == [] ==> Sound(fs, data, D1 - Way(dirname, 0))
      ensures r.Some? ==> current in data
      ensures r.Some? ==> forall q :: q in old(data) && Resolve(fs, q).Some? && q != current ==>
        q in data && data[q] == old(data)[q]
      ensures ExactOnTheWay(fs, old(data), dirname, |dirname|) ==> data == old(data)
      ensures r.Some? && CutsOk(fs, old(data)) && TameAt(fs, old(data), dirname[..|current|]) ==> CutsOk(fs, data)
      ensures fs.broken == {} && Resolve(fs, current).Some? ==> r.Some?
    {
      assert dirname[..|current|] == current;
      ghost var D := D1 - Way(dirname, |current| + 1) + {current};
      r := UpdateDirSize(fs, current, D);
      if r.Some? {
        SuspectsUp(fs, data, D, D - {current}, current);
        LessSuspects(fs, data, D1, dirname, current);
        if current != [] && Contained(current) {
          Upwards(fs, data, D1 - Way(dirname, |current|) + {Parent(current)}, current);
        }
      }
    }

    lemma SuspectsOn(fs: Fs, d: Sizes, D1: set<Path>, p: Path, n: nat)
      requires WellFormed(fs) && p != [] && n == |p| && p !in D1 && Sound(fs, d, D1 + {Parent(p)})
      ensures Sound(fs, d, D1 - Way(p, n) + {Parent(p)})
    {
      assert p[..|p|] == p;
      SoundMore(fs, d, D1 + {Parent(p)}, D1 - Way(p, n) + {Parent(p)});
    }

    lemma LessSuspects(fs: Fs, d: Sizes, D1: set<Path>, p: Path, current: Path)
      requires WellFormed(fs) && current <= p
      requires Sound(fs, d, D1 - Way(p, |current| + 1) + {current} - {current}
        + if current == [] then {} else {Parent(current)})
      ensures current != [] ==> Sound(fs, d, D1 - Way(p, |current|) + {Parent(current)})
      ensures current == [] ==> Sound(fs, d, D1 - Way(p, 0))
    {
      assert p[..|current|] == current;
      SoundMore(fs, d, D1 - Way(p, |current| + 1) + {current} - {current}
        + if current == [] then {} else {Parent(current)},
                if current == [] then D1 - Way(p, 0) else D1 - Way(p, |current|) + {Parent(current)});
    }

    lemma Upwards(fs: Fs, d: Sizes, D: set<Path>, p: Path)
      requires WellFormed(fs) && Sound(fs, d, D) && p in d && p != [] && Contained(p)
      ensures Parent(p) in d && Contained(Parent(p)) && Parent(p) <= p && |Parent(p)| < |p|
      ensures Resolve(fs, p).Some? ==> Resolve(fs, Parent(p)).Some?
    {
      assert SoundAt(fs, d, D, p);
      Split(p);
      ResolveNames(fs, Parent(p), Last(p));
    }

    lemma TameStays(fs: Fs, d: Sizes, d': Sizes, p: Path, k: nat)
      requires WellFormed(fs) && k <= |p| && forall q :: q in d && Resolve(fs, q).Some? ==> q in d'
      ensures Tame(fs, d, p) ==> TameAt(fs, d', p[..k])
    {
    }

    lemma UndisturbedStep(fs: Fs, d: Sizes, d': Sizes, d'': Sizes, p: Path, current: Path)
      requires WellFormed(fs) && current <= p
      requires forall q :: q in d' && Resolve(fs, q).Some? && q != current ==> q in d'' && d''[q] == d'[q]
      ensures Undisturbed(fs, d, d', p) ==> Undisturbed(fs, d, d'', p)
    {
    }

    /*** what the driver relies on ***/

    /** Everything that became stale is at dirname or above it. */
    static ghost predicate StaleWithin(fs: Fs, d: Sizes, dirname: Path)
      requires WellFormed(fs)
    {
      forall q :: StaleAt(fs, d, q) ==> q <= dirname
    }

    /** dirname was recorded and still exists, and re-reading it meets no new loop. */
    static ghost predicate Refreshable(before: Fs, fs: Fs, dirname: Path)
      requires WellFormed(before) && WellFormed(fs)
    {
      && fs.broken == {} && Contained(dirname) && dirname in Full(before) && Resolve(fs, dirname).Some?
      && Tame(fs, Full(before), dirname)
    }

    /** One refresh after a change on disk makes the cache what a full recomputation would
        give exactly if all that became stale is the refreshed directory and those above
        it: then the sums are right, new directories are entered and vanished ones, with
        all they contained, are gone. */
    method RefreshAfterChange(ghost before: Fs, fs: Fs, dirname: Path) returns (ok: bool)
      requires WellFormed(before) && WellFormed(fs) && !dirty && data == Full(before)
      modifies this
      ensures dirty == !ok && (fs.broken == {} ==> ok)
      ensures Refreshable(before, fs, dirname) ==> (data == Full(fs) <==> StaleWithin(fs, Full(before), dirname))
      ensures ok && Tame(fs, Full(before), dirname) && StaleWithin(fs, Full(before), dirname) ==> data == Full(fs)
    {
      ghost var was := data;
      ghost var D := set q | q in was && StaleAt(fs, was, q);
      ChangeMakesSuspects(before, fs, D);
      ok := Refresh(fs, dirname, D);
      if ok && Tame(fs, was, dirname) && StaleWithin(fs, was, dirname) {
        AllOnTheWay(fs, D, dirname);
        assert CutsOk(fs, was) by {
          TameOnTheWay(fs, was, dirname);
        }
        ExactIsFullIff(fs, data);
      } else if Refreshable(before, fs, dirname) && !StaleWithin(fs, was, dirname) {
        var q :| StaleAt(fs, was, q) && !(q <= dirname);
        StaleIsWrong(fs, was, q);
      }
    }

    /** Nothing on a tame way contains itself. */
    lemma TameOnTheWay(fs: Fs, d: Sizes, p: Path)
      requires WellFormed(fs) && Tame(fs, d, p)
      ensures forall q :: q <= p ==> !Loops(fs, q)
    {
      forall q: Path | q <= p ensures !Loops(fs, q) {
        assert p[..|q|] == q && TameAt(fs, d, p[..|q|]);
      }
    }

    lemma AllOnTheWay(fs: Fs, D: set<Path>, p: Path)
      requires forall q :: q in D ==> q <= p
      ensures D - Way(p, 0) == {}
    {
      forall q | q in D ensures q in Way(p, 0) {
        assert p[..|q|] == q;
      }
    }

    /** Everything that became stale is at one of two directories or above it. */
    static ghost predicate StaleWithinBoth(fs: Fs, d: Sizes, p: Path, q: Path)
      requires WellFormed(fs)
    {
      forall x :: StaleAt(fs, d, x) ==> x <= p || x <= q
    }

    /** MoveTo refreshes the source's parent, then the destination's. */
    method RefreshAfterMove(ghost before: Fs, fs: Fs, srcParent: Path, dstParent: Path) returns (ok: bool)
      requires WellFormed(before) && WellFormed(fs) && !dirty && data == Full(before)
      modifies this
      ensures dirty == !ok && (fs.broken == {} ==> ok)
      ensures Refreshable(before, fs, srcParent) && Refreshable(before, fs, dstParent) ==>
        (data == Full(fs) <==> StaleWithinBoth(fs, Full(before), srcParent, dstParent))
      ensures ok && Acyclic(fs) && StaleWithinBoth(fs, Full(before), srcParent, dstParent) ==> data == Full(fs)
    {
      ghost var was := data;
      ghost var D := set q | q in was && StaleAt(fs, was, q);
      ghost var known := Refreshable(before, fs, srcParent) && Refreshable(before, fs, dstParent);
      ChangeMakesSuspects(before, fs, D);
      if known && StaleWithinBoth(fs, was, srcParent, dstParent) {
        TameOnTheWay(fs, was, srcParent);
        TameOnTheWay(fs, was, dstParent);
      }
      var first := Refresh(fs, srcParent, D);
      ghost var mid, D1 := data, D - Way(srcParent, 0);
      if known {
        AfterFirst(before, fs, mid, D1, srcParent, dstParent);
      } else if Acyclic(fs) {
        AcyclicTame(fs, mid, dstParent);
      }
      ok := Refresh(fs, dstParent, D1);
      if ok && (known || Acyclic(fs)) && StaleWithinBoth(fs, was, srcParent, dstParent) {
        AllOnTheWays(fs, D, srcParent, dstParent);
        assert CutsOk(fs, data) by {
          if !known {
            AcyclicTame(fs, data, dstParent);
          }
        }
        ExactIsFullIff(fs, data);
      } else if known && !StaleWithinBoth(fs, was, srcParent, dstParent) {
        var q :| StaleAt(fs, was, q) && !(q <= srcParent || q <= dstParent);
        StaleIsWrong(fs, was, q);
      }
    }

    lemma AllOnTheWays(fs: Fs, D: set<Path>, p: Path, q: Path)
      requires forall x :: x in D ==> x <= p || x <= q
      ensures D - Way(p, 0) - Way(q, 0) == {}
    {
      forall x | x in D ensures x in Way(p, 0) + Way(q, 0) {
        assert x <= p ==> p[..|x|] == x;
        assert x <= q ==> q[..|x|] == x;
      }
    }

    /** After the first refresh the second is one of a recorded directory that exists. */
    lemma AfterFirst(before: Fs, fs: Fs, mid: Sizes, D1: set<Path>, p: Path, q: Path)
      requires WellFormed(before) && WellFormed(fs) && Refreshable(before, fs, q) && Sound(fs, mid, D1)
      requires Undisturbed(fs, Full(before), mid, p) && p in mid
      ensures q in mid && Tame(fs, mid, q)
    {
      forall x | x in Full(before) && Resolve(fs, x).Some? ensures x in mid {
        if x <= p {
          PrefixIn(fs, mid, D1, x, p);
        }
      }
    }

    /** With nothing changed on disk, a refresh of a directory leaves the full recomputation
        as it is exactly if the directory does not contain itself; if it does, by links, it
        gets the size of what the recomputation cut off. */
    method RefreshAgain(fs: Fs, dirname: Path) returns (ok: bool)
      requires WellFormed(fs) && fs.broken == {} && !dirty && data == Full(fs) && Contained(dirname) && dirname in data
      modifies this
      ensures ok && !dirty
      ensures data == Full(fs) <==> !Loops(fs, dirname)
    {
      FullExact(fs);
      WantLocal(fs, [], fs.top, dirname);
      if Loops(fs, dirname) {
        CutIsInexact(fs, dirname);
      } else {
        forall k | 0 <= k <= |dirname| ensures LocalExact(fs, Full(fs), dirname[..k]) {
          FullOnTheWay(fs, dirname, k);
        }
      }
      ok := Refresh(fs, dirname, {});
    }
  }
}

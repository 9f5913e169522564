/** What the explicit stack of calculateDirSizeLocked stands for: the map that
    finishing the stacked tasks would leave. */
module DirWalk {
  import opened Wrappers
  import opened DirSpec

  /** A directory still to be read, with the identities of its ancestors and its own,
      or one whose subdirectories are about to be complete. */
  datatype Task =
    | Visit(path: Path, id: nat, ancestors: set<nat>)
    | Finish(path: Path, fileSum: nat, children: seq<string>)

  predicate ChildrenIn(data: Sizes, p: Path, names: seq<string>) {
    forall i :: 0 <= i < |names| ==> p + [names[i]] in data
  }

  function ChildSum(data: Sizes, p: Path, names: seq<string>): nat
    requires ChildrenIn(data, p, names)
  {
    if names == [] then 0
    else
      assert forall i :: 0 <= i < |names[1..]| ==> names[1..][i] == names[i + 1];
      assert names[0] == names[0] && p + [names[0]] in data;
      Size(data[p + [names[0]]]) + ChildSum(data, p, names[1..])
  }

  lemma {:induction false} ChildSumSnoc(data: Sizes, p: Path, names: seq<string>, n: string)
    requires ChildrenIn(data, p, names) && p + [n] in data
    ensures ChildrenIn(data, p, names + [n])
    ensures ChildSum(data, p, names + [n]) == ChildSum(data, p, names) + Size(data[p + [n]])
    decreases |names|
  {
    if names == [] {
      assert [] + [n] == [n];
    } else {
      assert (names + [n])[1..] == names[1..] + [n];
      ChildSumSnoc(data, p, names[1..], n);
    }
  }

  /** The map after one task, or None if something below it cannot be read or a
      child is missing. */
  function Effect(fs: Fs, t: Task, data: Sizes): Option<Sizes>
    requires WellFormed(fs) && (t.Visit? ==> t.id in fs.dirs)
  {
    match t
    case Visit(p, id, anc) => if Readable(fs, p, id, anc) then Some(data + Want(fs, p, id, anc)) else None
    case Finish(p, fileSum, children) =>
      if ChildrenIn(data, p, children)
      then Some(data[p := Node(fileSum, ChildSum(data, p, children), children)]) else None
  }

  predicate TasksOk(fs: Fs, stack: seq<Task>) {
    forall i :: 0 <= i < |stack| && stack[i].Visit? ==> stack[i].id in fs.dirs
  }

  /** The map after all tasks, the last one first. */
  function ResultOf(fs: Fs, stack: seq<Task>, data: Sizes): Option<Sizes>
    requires WellFormed(fs) && TasksOk(fs, stack)
    decreases |stack|
  {
    if stack == [] then Some(data)
    else
      match Effect(fs, stack[|stack| - 1], data)
      case None => None
      case Some(d) => ResultOf(fs, stack[..|stack| - 1], d)
  }

  /*** well-formed stacks ***/

  predicate NoneBelow(data: Sizes, p: Path) {
    forall k :: k in data ==> !(p <= k)
  }

  /** A pending directory is where its path leads, and nothing at or below it has
      been entered. */
  predicate TaskOk(fs: Fs, t: Task, data: Sizes)
    requires WellFormed(fs)
  {
    t.Visit? ==> Resolve(fs, t.path) == Some(t.id) && NoneBelow(data, t.path)
  }

  /** When u, above t on the stack, is done, t is as untouched as before. */
  predicate Clear(t: Task, u: Task) {
    t.Visit? ==> !(t.path <= u.path) && (u.Visit? ==> !(u.path <= t.path))
  }

  predicate OrderOk(stack: seq<Task>) {
    forall i, j :: 0 <= i < j < |stack| ==> Clear(stack[i], stack[j])
  }

  predicate StackOk(fs: Fs, stack: seq<Task>, data: Sizes)
    requires WellFormed(fs)
  {
    && TasksOk(fs, stack)
    && (forall i :: 0 <= i < |stack| ==> TaskOk(fs, stack[i], data))
    && OrderOk(stack)
  }

  lemma OrderAppend(a: seq<Task>, b: seq<Task>)
    requires OrderOk(a) && OrderOk(b)
    requires forall i, j :: 0 <= i < |a| && 0 <= j < |b| ==> Clear(a[i], b[j])
    ensures OrderOk(a + b)
  {
  }

  /*** termination ***/

  /** How many rounds a pending directory still costs. */
  function Weight(fs: Fs, id: nat, anc: set<nat>): nat
    requires WellFormed(fs) && id in fs.dirs
    decreases |fs.dirs.Keys - anc|, 1, 0
  {
    FoldersInFs(fs, id);
    2 + WeightAll(fs, Folders(fs.dirs[id]), anc)
  }

  function WeightAll(fs: Fs, folders: seq<Entry>, anc: set<nat>): nat
    requires WellFormed(fs) && InFs(fs, folders)
    decreases |fs.dirs.Keys - anc|, 0, |folders|
  {
    if folders == [] then 0
    else
      var e := folders[|folders| - 1];
      WeightAll(fs, folders[..|folders| - 1], anc) +
      if e.id in anc then 0 else (Shrinks(fs, e.id, anc); Weight(fs, e.id, anc + {e.id}))
  }

  function StackWeight(fs: Fs, stack: seq<Task>): nat
    requires WellFormed(fs) && TasksOk(fs, stack)
  {
    if stack == [] then 0
    else
      var t := stack[|stack| - 1];
      StackWeight(fs, stack[..|stack| - 1]) + if t.Visit? then Weight(fs, t.id, t.ancestors) else 1
  }

  /*** what reading one directory pushes ***/

  /** The subdirectories to visit. */
  function Queue(p: Path, folders: seq<Entry>, anc: set<nat>): (q: seq<Task>)
    requires forall i :: 0 <= i < |folders| ==> folders[i].Folder?
    ensures forall i :: 0 <= i < |q| ==> q[i].Visit?
  {
    if folders == [] then []
    else
      var e := folders[|folders| - 1];
      Queue(p, folders[..|folders| - 1], anc) +
      if e.id in anc then [] else [Visit(p + [e.name], e.id, anc + {e.id})]
  }

  /** The empty nodes entered for directories that are their own ancestors. */
  function Cuts(p: Path, folders: seq<Entry>, anc: set<nat>): Sizes
    requires forall i :: 0 <= i < |folders| ==> folders[i].Folder?
  {
    if folders == [] then map[]
    else
      var e := folders[|folders| - 1];
      Cuts(p, folders[..|folders| - 1], anc) + if e.id in anc then map[p + [e.name] := Node(0, 0, [])] else map[]
  }

  lemma {:induction false} QueueAt(p: Path, folders: seq<Entry>, anc: set<nat>, i: int) returns (j: int)
    requires forall i :: 0 <= i < |folders| ==> folders[i].Folder?
    requires 0 <= i < |Queue(p, folders, anc)|
    ensures 0 <= j < |folders| && folders[j].id !in anc
    ensures Queue(p, folders, anc)[i] == Visit(p + [folders[j].name], folders[j].id, anc + {folders[j].id})
    decreases |folders|
  {
    var init, e := folders[..|folders| - 1], folders[|folders| - 1];
    if i < |Queue(p, init, anc)| {
      j := QueueAt(p, init, anc, i);
    } else {
      j := |folders| - 1;
    }
  }

  lemma QueueSnoc(p: Path, folders: seq<Entry>, e: Entry, anc: set<nat>)
    requires e.Folder? && forall i :: 0 <= i < |folders| ==> folders[i].Folder?
    ensures var more := folders + [e];
      && (forall i :: 0 <= i < |more| ==> more[i].Folder?)
      && Queue(p, more, anc) == Queue(p, folders, anc)
         + (if e.id in anc then [] else [Visit(p + [e.name], e.id, anc + {e.id})])
      && Cuts(p, more, anc) ==
         if e.id in anc then Cuts(p, folders, anc)[p + [e.name] := Node(0, 0, [])] else Cuts(p, folders, anc)
  {
    var more := folders + [e];
    assert more[..|more| - 1] == folders && more[|more| - 1] == e;
  }

  /** What a scan of a listing accumulates. */
  datatype Acc = Acc(fileSum: nat, children: seq<string>, queue: seq<Task>, cuts: Sizes)

  function Scanned(p: Path, anc: set<nat>, acc: Acc, f: Entry): Acc {
    if f.File? then acc.(fileSum := acc.fileSum + f.size)
    else if f.id in anc then acc.(children := acc.children + [f.name], cuts := acc.cuts[p + [f.name] := Node(0, 0, [])])
    else acc.(children := acc.children + [f.name], queue := acc.queue + [Visit(p + [f.name], f.id, anc + {f.id})])
  }

  /** What re-reading a listing accumulates apart from sizes. */
  datatype Tally = Tally(fileSum: nat, children: seq<string>)

  function TallyAll(t: Tally, es: seq<Entry>): Tally
    decreases |es|
  {
    if es == [] then t
    else if es[0].File? then TallyAll(t.(fileSum := t.fileSum + es[0].size), es[1..])
    else TallyAll(t.(children := t.children + [es[0].name]), es[1..])
  }

  lemma {:induction false} TallyAllIs(t: Tally, es: seq<Entry>)
    ensures TallyAll(t, es) == Tally(t.fileSum + FileSum(es), t.children + Names(Folders(es)))
    decreases |es|
  {
    if es == [] {
      assert t.children + [] == t.children;
    } else {
      var t' := if es[0].File? then t.(fileSum := t.fileSum + es[0].size)
        else t.(children := t.children + [es[0].name]);
      TallyAllIs(t', es[1..]);
      var rest := Folders(es[1..]);
      if es[0].Folder? {
        assert Names([es[0]] + rest) == [es[0].name] + Names(rest);
        assert t.children + ([es[0].name] + Names(rest)) == t.children + [es[0].name] + Names(rest);
      } else {
        assert Folders(es) == rest;
      }
    }
  }

  predicate LinkBroken(fs: Fs, p: Path, f: Entry) {
    f.Folder? && f.link && p + [f.name] in fs.broken
  }

  function ScanAll(fs: Fs, p: Path, anc: set<nat>, acc: Acc, es: seq<Entry>): Option<Acc>
    decreases |es|
  {
    if es == [] then Some(acc)
    else if LinkBroken(fs, p, es[0]) then None
    else ScanAll(fs, p, anc, Scanned(p, anc, acc, es[0]), es[1..])
  }

  function AccOf(p: Path, anc: set<nat>, es: seq<Entry>): Acc {
    Acc(FileSum(es), Names(Folders(es)), Queue(p, Folders(es), anc), Cuts(p, Folders(es), anc))
  }

  lemma ScannedSnoc(p: Path, anc: set<nat>, es: seq<Entry>, f: Entry)
    ensures Scanned(p, anc, AccOf(p, anc, es), f) == AccOf(p, anc, es + [f])
  {
    Snoc(es, f);
    if f.Folder? {
      QueueSnoc(p, Folders(es), f, anc);
      assert Names(Folders(es) + [f]) == Names(Folders(es)) + [f.name];
    }
  }

  /** The scan computes the file sum, the names, the visits and the cut nodes. */
  lemma {:induction false} ScanAllIs(fs: Fs, p: Path, anc: set<nat>, seen: seq<Entry>, es: seq<Entry>)
    ensures ScanAll(fs, p, anc, AccOf(p, anc, seen), es) ==
      if LinksReadable(fs, p, Folders(es)) then Some(AccOf(p, anc, seen + es)) else None
    decreases |es|
  {
    if es == [] {
      assert seen + [] == seen;
    } else {
      ScannedSnoc(p, anc, seen, es[0]);
      ScanAllIs(fs, p, anc, seen + [es[0]], es[1..]);
      assert seen + [es[0]] + es[1..] == seen + es;
      LinksCons(fs, p, es);
    }
  }

  lemma LinksCons(fs: Fs, p: Path, es: seq<Entry>)
    requires es != []
    ensures LinksReadable(fs, p, Folders(es)) <==> !LinkBroken(fs, p, es[0]) && LinksReadable(fs, p, Folders(es[1..]))
  {
    var r := Folders(es[1..]);
    if es[0].Folder? {
      assert Folders(es) == [es[0]] + r;
      assert Folders(es)[0] == es[0];
      assert forall i :: 0 <= i < |r| ==> Folders(es)[i + 1] == r[i];
    } else {
      assert Folders(es) == r;
    }
  }

  predicate LinksReadable(fs: Fs, p: Path, folders: seq<Entry>) {
    forall i :: 0 <= i < |folders| && folders[i].Folder? && folders[i].link ==> p + [folders[i].name] !in fs.broken
  }

  /*** lemmas ***/

  lemma {:induction false} WantBelow(fs: Fs, p: Path, id: nat, anc: set<nat>)
    requires WellFormed(fs) && id in fs.dirs
    ensures p in Want(fs, p, id, anc)
    ensures forall k :: k in Want(fs, p, id, anc) ==> p <= k
    decreases |fs.dirs.Keys - anc|, 1, 0
  {
    FoldersInFs(fs, id);
    WantAllBelow(fs, p, Folders(fs.dirs[id]), anc);
  }

  /** Keys of WantAll lie below one of the listed folders. */
  predicate BelowSome(p: Path, folders: seq<Entry>, k: Path) {
    exists i :: 0 <= i < |folders| && p + [folders[i].name] <= k
  }

  lemma {:induction false} WantAllBelow(fs: Fs, p: Path, folders: seq<Entry>, anc: set<nat>)
    requires WellFormed(fs) && InFs(fs, folders)
    ensures forall k :: k in WantAll(fs, p, folders, anc) ==> BelowSome(p, folders, k)
    decreases |fs.dirs.Keys - anc|, 0, |folders|
  {
    if folders != [] {
      var init, e := folders[..|folders| - 1], folders[|folders| - 1];
      WantAllBelow(fs, p, init, anc);
      WantOneBelow(fs, p, e, anc);
      forall k | k in WantAll(fs, p, folders, anc) ensures BelowSome(p, folders, k) {
        if k in WantAll(fs, p, init, anc) {
          assert BelowSome(p, init, k);
          var i :| 0 <= i < |init| && p + [init[i].name] <= k;
          assert folders[i] == init[i];
        } else {
          assert p + [folders[|folders| - 1].name] <= k;
        }
      }
    }
  }

  lemma {:induction false} WantOneBelow(fs: Fs, p: Path, e: Entry, anc: set<nat>)
    requires WellFormed(fs) && e.Folder? && e.id in fs.dirs
    ensures p + [e.name] in WantOne(fs, p, e, anc)
    ensures Size(WantOne(fs, p, e, anc)[p + [e.name]]) == TotalOne(fs, e, anc)
    ensures forall k :: k in WantOne(fs, p, e, anc) ==> p + [e.name] <= k
    decreases |fs.dirs.Keys - anc|, 0, 0
  {
    if e.id !in anc {
      Shrinks(fs, e.id, anc);
      WantBelow(fs, p + [e.name], e.id, anc + {e.id});
    }
  }

  lemma CutsBelow(p: Path, folders: seq<Entry>, anc: set<nat>)
    requires forall i :: 0 <= i < |folders| ==> folders[i].Folder?
    ensures forall k :: k in Cuts(p, folders, anc) ==> BelowSome(p, folders, k)
  {
    if folders != [] {
      var init, e := folders[..|folders| - 1], folders[|folders| - 1];
      CutsBelow(p, init, anc);
      forall k | k in Cuts(p, folders, anc) ensures BelowSome(p, folders, k) {
        if k in Cuts(p, init, anc) {
          var i :| 0 <= i < |init| && p + [init[i].name] <= k;
          assert folders[i] == init[i];
        } else {
          assert p + [folders[|folders| - 1].name] <= k;
        }
      }
    }
  }

  lemma SiblingsApart(p: Path, a: string, b: string, k: Path)
    requires p + [a] <= k
    ensures p + [b] <= k <==> a == b
  {
    assert k[|p|] == (p + [a])[|p|] == a;
    assert (p + [b])[|p|] == b;
  }

  /** A folder that is not listed in folders contributes keys that those do not. */
  lemma DisjointLast(p: Path, init: seq<Entry>, e: Entry, k: Path)
    requires forall i :: 0 <= i < |init| ==> init[i].name != e.name
    requires p + [e.name] <= k
    ensures !BelowSome(p, init, k)
  {
    forall i | 0 <= i < |init| ensures !(p + [init[i].name] <= k) {
      if p + [init[i].name] <= k {
        SiblingsApart(p, init[i].name, e.name, k);
        assert false;
      }
    }
  }

  lemma Commute(d: Sizes, a: Sizes, b: Sizes)
    requires a.Keys !! b.Keys
    ensures d + a + b == d + b + a && d + a + b == d + (a + b)
  {
  }

  lemma {:induction false} InitResult(fs: Fs, base: seq<Task>, q: seq<Task>, t: Task, d: Sizes)
    requires WellFormed(fs) && TasksOk(fs, base) && TasksOk(fs, q) && (t.Visit? ==> t.id in fs.dirs)
    ensures TasksOk(fs, base + (q + [t])) && TasksOk(fs, base + q)
    ensures ResultOf(fs, base + (q + [t]), d) ==
      match Effect(fs, t, d) case None => None case Some(d') => ResultOf(fs, base + q, d')
  {
    var s := base + (q + [t]);
    assert s[|s| - 1] == t && s[..|s| - 1] == base + q;
  }

  /** The last folder's nodes do not collide with those of the others. */
  lemma LastApart(fs: Fs, p: Path, folders: seq<Entry>, anc: set<nat>)
    requires WellFormed(fs) && InFs(fs, folders) && Distinct(folders) && folders != []
    ensures var init, e := folders[..|folders| - 1], folders[|folders| - 1];
      && WantOne(fs, p, e, anc).Keys !! Cuts(p, init, anc).Keys
      && WantOne(fs, p, e, anc).Keys !! WantAll(fs, p, init, anc).Keys
  {
    var init, e := folders[..|folders| - 1], folders[|folders| - 1];
    WantOneBelow(fs, p, e, anc);
    CutsBelow(p, init, anc);
    WantAllBelow(fs, p, init, anc);
    forall k | k in WantOne(fs, p, e, anc) ensures k !in Cuts(p, init, anc) && k !in WantAll(fs, p, init, anc) {
      DisjointLast(p, init, e, k);
    }
  }

  /** Running the queued visits adds what is wanted for the listed folders, on top
      of the cut ones already entered. */
  lemma {:induction false} QueueResult(fs: Fs, base: seq<Task>, p: Path, folders: seq<Entry>, anc: set<nat>, d: Sizes)
    requires WellFormed(fs) && TasksOk(fs, base) && InFs(fs, folders) && Distinct(folders)
      && LinksReadable(fs, p, folders)
    ensures TasksOk(fs, Queue(p, folders, anc)) && TasksOk(fs, base + Queue(p, folders, anc))
    ensures ResultOf(fs, base + Queue(p, folders, anc), d + Cuts(p, folders, anc)) ==
      if ReadableAll(fs, p, folders, anc) then ResultOf(fs, base, d + WantAll(fs, p, folders, anc)) else None
    decreases |folders|
  {
    if folders == [] {
      assert base + Queue(p, folders, anc) == base;
      assert d + map[] == d;
    } else {
      var init, e := folders[..|folders| - 1], folders[|folders| - 1];
      var want := WantOne(fs, p, e, anc);
      LastApart(fs, p, folders, anc);
      Commute(d, Cuts(p, init, anc), want);
      Commute(d, WantAll(fs, p, init, anc), want);
      QueueResult(fs, base, p, init, anc, d + want);
      QueueLast(fs, base, p, folders, anc, d);
    }
  }

  /** The last queued visit runs first. */
  lemma QueueLast(fs: Fs, base: seq<Task>, p: Path, folders: seq<Entry>, anc: set<nat>, d: Sizes)
    requires WellFormed(fs) && TasksOk(fs, base) && InFs(fs, folders) && Distinct(folders)
      && LinksReadable(fs, p, folders)
    requires folders != []
    ensures var init, e := folders[..|folders| - 1], folders[|folders| - 1];
      && TasksOk(fs, base + Queue(p, folders, anc)) && TasksOk(fs, base + Queue(p, init, anc))
      && ResultOf(fs, base + Queue(p, folders, anc), d + Cuts(p, folders, anc)) ==
           if ReadableOne(fs, p, e, anc)
           then ResultOf(fs, base + Queue(p, init, anc), d + WantOne(fs, p, e, anc) + Cuts(p, init, anc)) else None
  {
    var init, e := folders[..|folders| - 1], folders[|folders| - 1];
    var want := WantOne(fs, p, e, anc);
    LastApart(fs, p, folders, anc);
    Commute(d, Cuts(p, init, anc), want);
    QueueTasks(fs, base, p, init, anc);
    if e.id in anc {
      assert Queue(p, folders, anc) == Queue(p, init, anc);
    } else {
      assert Cuts(p, folders, anc) == Cuts(p, init, anc);
      InitResult(fs, base, Queue(p, init, anc), Visit(p + [e.name], e.id, anc + {e.id}), d + Cuts(p, init, anc));
    }
  }

  lemma QueueTasks(fs: Fs, base: seq<Task>, p: Path, folders: seq<Entry>, anc: set<nat>)
    requires WellFormed(fs) && TasksOk(fs, base) && InFs(fs, folders)
    ensures TasksOk(fs, Queue(p, folders, anc)) && TasksOk(fs, base + Queue(p, folders, anc))
  {
    forall i | 0 <= i < |Queue(p, folders, anc)| ensures Queue(p, folders, anc)[i].id in fs.dirs {
      var j := QueueAt(p, folders, anc, i);
    }
  }

  /** The children of a directory add up to its directory sum. */
  lemma {:induction false} ChildSumIsTotal(fs: Fs, p: Path, folders: seq<Entry>, anc: set<nat>, data: Sizes)
    requires WellFormed(fs) && InFs(fs, folders)
    requires forall i :: 0 <= i < |folders| ==>
      p + [folders[i].name] in data && Size(data[p + [folders[i].name]]) == TotalOne(fs, folders[i], anc)
    ensures ChildrenIn(data, p, Names(folders))
    ensures ChildSum(data, p, Names(folders)) == TotalAll(fs, folders, anc)
    decreases |folders|
  {
    if folders != [] {
      ChildSumIsTotal(fs, p, folders[1..], anc, data);
      assert Names(folders)[1..] == Names(folders[1..]);
    }
  }

  lemma {:induction false} WantAllAt(fs: Fs, p: Path, folders: seq<Entry>, anc: set<nat>, i: int)
    requires WellFormed(fs) && InFs(fs, folders) && Distinct(folders) && 0 <= i < |folders|
    ensures p + [folders[i].name] in WantAll(fs, p, folders, anc)
    ensures Size(WantAll(fs, p, folders, anc)[p + [folders[i].name]]) == TotalOne(fs, folders[i], anc)
    decreases |folders|
  {
    var init, e := folders[..|folders| - 1], folders[|folders| - 1];
    WantOneBelow(fs, p, e, anc);
    if i < |init| {
      WantAllAt(fs, p, init, anc, i);
      if p + [folders[i].name] in WantOne(fs, p, e, anc) {
        SiblingsApart(p, folders[i].name, e.name, p + [folders[i].name]);
        assert false;
      }
    }
  }

  /** Reading the directory at p, entering its cut children and pushing the rest is
      the same as visiting it. */
  lemma Expanded(fs: Fs, base: seq<Task>, p: Path, id: nat, anc: set<nat>, data: Sizes)
    requires WellFormed(fs) && TasksOk(fs, base) && id in fs.dirs && p !in fs.broken
    requires LinksReadable(fs, p, Folders(fs.dirs[id]))
    ensures var folders := Folders(fs.dirs[id]);
      var stack := base + [Finish(p, FileSum(fs.dirs[id]), Names(folders))] + Queue(p, folders, anc);
      && TasksOk(fs, stack)
      && ResultOf(fs, stack, data + Cuts(p, folders, anc)) == ResultOf(fs, base + [Visit(p, id, anc)], data)
  {
    var folders := Folders(fs.dirs[id]);
    var finish := Finish(p, FileSum(fs.dirs[id]), Names(folders));
    FoldersDistinct(fs.dirs[id]);
    FoldersInFs(fs, id);
    QueueResult(fs, base + [finish], p, folders, anc, data);
    LastResult(fs, base, Visit(p, id, anc), data);
    FinishEffect(fs, p, id, anc, data);
    LastResult(fs, base, finish, data + WantAll(fs, p, folders, anc));
  }

  lemma LastResult(fs: Fs, base: seq<Task>, t: Task, d: Sizes)
    requires WellFormed(fs) && TasksOk(fs, base) && (t.Visit? ==> t.id in fs.dirs)
    ensures TasksOk(fs, base + [t])
    ensures ResultOf(fs, base + [t], d) ==
      match Effect(fs, t, d) case None => None case Some(d') => ResultOf(fs, base, d')
  {
    InitResult(fs, base, [], t, d);
    assert [] + [t] == [t] && base + [] == base;
  }

  /** Finishing a directory whose subdirectories are complete completes it. */
  lemma FinishEffect(fs: Fs, p: Path, id: nat, anc: set<nat>, data: Sizes)
    requires WellFormed(fs) && id in fs.dirs
    ensures var folders := Folders(fs.dirs[id]);
      InFs(fs, folders) &&
      Effect(fs, Finish(p, FileSum(fs.dirs[id]), Names(folders)), data + WantAll(fs, p, folders, anc))
        == Some(data + Want(fs, p, id, anc))
  {
    var folders := Folders(fs.dirs[id]);
    FoldersDistinct(fs.dirs[id]);
    FoldersInFs(fs, id);
    var d := data + WantAll(fs, p, folders, anc);
    forall i | 0 <= i < |folders|
      ensures p + [folders[i].name] in d && Size(d[p + [folders[i].name]]) == TotalOne(fs, folders[i], anc)
    {
      WantAllAt(fs, p, folders, anc, i);
    }
    ChildSumIsTotal(fs, p, folders, anc, d);
    assert data + Want(fs, p, id, anc) ==
      d[p := Node(FileSum(fs.dirs[id]), TotalAll(fs, folders, anc), Names(folders))];
  }

  lemma {:induction false} QueueWeight(fs: Fs, base: seq<Task>, p: Path, folders: seq<Entry>, anc: set<nat>)
    requires WellFormed(fs) && TasksOk(fs, base) && InFs(fs, folders)
    ensures TasksOk(fs, base + Queue(p, folders, anc))
    ensures StackWeight(fs, base + Queue(p, folders, anc)) == StackWeight(fs, base) + WeightAll(fs, folders, anc)
    decreases |folders|
  {
    if folders == [] {
      assert base + Queue(p, folders, anc) == base;
    } else {
      var init, e := folders[..|folders| - 1], folders[|folders| - 1];
      QueueWeight(fs, base, p, init, anc);
      if e.id in anc {
        assert Queue(p, folders, anc) == Queue(p, init, anc);
      } else {
        var s := base + Queue(p, folders, anc);
        assert s[..|s| - 1] == base + Queue(p, init, anc);
      }
    }
  }

  /** Below p there is nothing that is below an unrelated b. */
  lemma OutsideApart(b: Path, p: Path, k: Path)
    requires !(b <= p) && !(p <= b) && p <= k
    ensures !(b <= k) && !(k <= b)
  {
  }

  lemma CutsUnder(p: Path, folders: seq<Entry>, anc: set<nat>)
    requires forall i :: 0 <= i < |folders| ==> folders[i].Folder?
    ensures forall k :: k in Cuts(p, folders, anc) ==> p <= k
  {
    CutsBelow(p, folders, anc);
    forall k | k in Cuts(p, folders, anc) ensures p <= k {
      assert BelowSome(p, folders, k);
      var i :| 0 <= i < |folders| && p + [folders[i].name] <= k;
      assert p == (p + [folders[i].name])[..|p|] == k[..|p|];
    }
  }

  lemma BaseFresh(data: Sizes, b: Path, p: Path, folders: seq<Entry>, anc: set<nat>)
    requires forall i :: 0 <= i < |folders| ==> folders[i].Folder?
    requires NoneBelow(data, b) && !(b <= p) && !(p <= b)
    ensures NoneBelow(data + Cuts(p, folders, anc), b)
  {
    CutsUnder(p, folders, anc);
    forall k | k in Cuts(p, folders, anc) ensures !(b <= k) {
      OutsideApart(b, p, k);
    }
  }

  lemma CutAt(p: Path, folders: seq<Entry>, anc: set<nat>, k: Path)
    requires forall i :: 0 <= i < |folders| ==> folders[i].Folder?
    requires k in Cuts(p, folders, anc)
    ensures exists i :: 0 <= i < |folders| && k == p + [folders[i].name] && folders[i].id in anc
  {
    var init, e := folders[..|folders| - 1], folders[|folders| - 1];
    if k in Cuts(p, init, anc) {
      CutAt(p, init, anc, k);
      var i :| 0 <= i < |init| && k == p + [init[i].name] && init[i].id in anc;
      assert folders[i] == init[i];
    }
  }

  lemma DeeperFresh(data: Sizes, p: Path, name: string)
    requires NoneBelow(data, p)
    ensures NoneBelow(data, p + [name])
  {
    assert forall k :: k in data && p + [name] <= k ==> p <= k;
  }

  /** A queued visit of p's expansion. */
  predicate ChildOf(p: Path, t: Task) {
    t.Visit? && |t.path| == |p| + 1 && p <= t.path
  }

  lemma CutsMiss(p: Path, folders: seq<Entry>, anc: set<nat>, j: int)
    requires (forall i :: 0 <= i < |folders| ==> folders[i].Folder?) && Distinct(folders)
    requires 0 <= j < |folders| && folders[j].id !in anc
    ensures NoneBelow(Cuts(p, folders, anc), p + [folders[j].name])
  {
    forall k | k in Cuts(p, folders, anc) ensures !(p + [folders[j].name] <= k) {
      CutAt(p, folders, anc, k);
      var l :| 0 <= l < |folders| && k == p + [folders[l].name] && folders[l].id in anc;
      SiblingsApart(p, folders[l].name, folders[j].name, k);
    }
  }

  lemma QueuedOk(fs: Fs, data: Sizes, p: Path, id: nat, anc: set<nat>, i: int)
    requires WellFormed(fs) && Resolve(fs, p) == Some(id) && NoneBelow(data, p)
    requires 0 <= i < |Queue(p, Folders(fs.dirs[id]), anc)|
    ensures var t := Queue(p, Folders(fs.dirs[id]), anc)[i];
      ChildOf(p, t) && TaskOk(fs, t, data + Cuts(p, Folders(fs.dirs[id]), anc))
  {
    var folders := Folders(fs.dirs[id]);
    FoldersDistinct(fs.dirs[id]);
    FoldersInFs(fs, id);
    var t := Queue(p, folders, anc)[i];
    var j := QueueAt(p, folders, anc, i);
    FoldersComplete(fs.dirs[id], folders[j]);
    ResolveChild(fs, p, folders[j]);
    CutsMiss(p, folders, anc, j);
    DeeperFresh(data, p, folders[j].name);
  }

  lemma {:induction false} QueueOrder(p: Path, folders: seq<Entry>, anc: set<nat>)
    requires (forall i :: 0 <= i < |folders| ==> folders[i].Folder?) && Distinct(folders)
    ensures OrderOk(Queue(p, folders, anc))
    decreases |folders|
  {
    if folders != [] {
      var init, e := folders[..|folders| - 1], folders[|folders| - 1];
      QueueOrder(p, init, anc);
      var q := Queue(p, init, anc);
      var t := Visit(p + [e.name], e.id, anc + {e.id});
      forall i | 0 <= i < |q| ensures Clear(q[i], t) {
        var j := QueueAt(p, init, anc, i);
        SiblingsApart(p, e.name, init[j].name, t.path);
        SiblingsApart(p, init[j].name, e.name, q[i].path);
      }
      OrderAppend(q, [t]);
    }
  }

  /** Expanding the top task keeps the stack in order. */
  lemma ExpandedOk(fs: Fs, base: seq<Task>, p: Path, id: nat, anc: set<nat>, data: Sizes)
    requires WellFormed(fs) && id in fs.dirs && StackOk(fs, base + [Visit(p, id, anc)], data)
    ensures var folders := Folders(fs.dirs[id]);
      StackOk(fs, base + [Finish(p, FileSum(fs.dirs[id]), Names(folders))] + Queue(p, folders, anc),
              data + Cuts(p, folders, anc))
  {
    var was := base + [Visit(p, id, anc)];
    assert was[|base|] == Visit(p, id, anc) && TaskOk(fs, was[|base|], data);
    var folders := Folders(fs.dirs[id]);
    FoldersDistinct(fs.dirs[id]);
    FoldersInFs(fs, id);
    var q := Queue(p, folders, anc);
    var d := data + Cuts(p, folders, anc);
    var finish := Finish(p, FileSum(fs.dirs[id]), Names(folders));
    assert TasksOk(fs, base + [finish]) by {
      assert forall i :: 0 <= i < |base| ==> was[i] == base[i];
    }
    QueueTasks(fs, base + [finish], p, folders, anc);
    forall i | 0 <= i < |base|
      ensures TaskOk(fs, base[i], d) && Clear(base[i], finish) && Clear(base[i], was[|base|])
    {
      assert was[i] == base[i] && TaskOk(fs, was[i], data) && Clear(was[i], was[|base|]);
      if base[i].Visit? {
        BaseFresh(data, base[i].path, p, folders, anc);
      }
    }
    forall i | 0 <= i < |q| ensures ChildOf(p, q[i]) && TaskOk(fs, q[i], d) {
      QueuedOk(fs, data, p, id, anc, i);
    }
    assert OrderOk(base) by {
      assert forall i :: 0 <= i < |base| ==> was[i] == base[i];
    }
    OrderAppend(base, [finish]);
    QueueOrder(p, folders, anc);
    forall i, j | 0 <= i < |base + [finish]| && 0 <= j < |q| ensures Clear((base + [finish])[i], q[j]) {
      if i < |base| && base[i].Visit? {
        OutsideApart(base[i].path, p, q[j].path);
      }
    }
    OrderAppend(base + [finish], q);
  }

  /** Popping a task that only enters its own path keeps the rest in order. */
  lemma PoppedOk(fs: Fs, base: seq<Task>, t: Task, data: Sizes, data': Sizes)
    requires WellFormed(fs) && StackOk(fs, base + [t], data)
    requires forall k :: k in data' ==> k in data || k == t.path || (t.Visit? && t.path <= k)
    ensures StackOk(fs, base, data')
  {
    var was := base + [t];
    assert was[|base|] == t;
    forall i | 0 <= i < |base| ensures TaskOk(fs, base[i], data') {
      assert was[i] == base[i] && TaskOk(fs, was[i], data) && Clear(was[i], was[|base|]);
      if base[i].Visit? && t.Visit? {
        forall k | k in data' && t.path <= k ensures !(base[i].path <= k) {
          OutsideApart(base[i].path, t.path, k);
        }
      }
    }
    forall i, j | 0 <= i < j < |base| ensures Clear(base[i], base[j]) {
      assert was[i] == base[i] && was[j] == base[j] && Clear(was[i], was[j]);
    }
    assert forall i :: 0 <= i < |base| ==> was[i] == base[i];
  }

  lemma {:induction false} NothingQueued(fs: Fs, p: Path, folders: seq<Entry>, anc: set<nat>)
    requires WellFormed(fs) && InFs(fs, folders) && LinksReadable(fs, p, folders)
    requires Queue(p, folders, anc) == []
    ensures WantAll(fs, p, folders, anc) == Cuts(p, folders, anc)
    ensures ReadableAll(fs, p, folders, anc)
    ensures forall i :: 0 <= i < |folders| ==> folders[i].id in anc
    decreases |folders|
  {
    if folders != [] {
      NothingQueued(fs, p, folders[..|folders| - 1], anc);
    }
  }

  lemma {:induction false} AllCutTotal(fs: Fs, folders: seq<Entry>, anc: set<nat>)
    requires WellFormed(fs) && InFs(fs, folders)
    requires forall i :: 0 <= i < |folders| ==> folders[i].id in anc
    ensures TotalAll(fs, folders, anc) == 0
    decreases |folders|
  {
    if folders != [] {
      AllCutTotal(fs, folders[1..], anc);
    }
  }

  /** A directory none of whose subdirectories need a visit is complete at once. */
  lemma LeafResult(fs: Fs, base: seq<Task>, p: Path, id: nat, anc: set<nat>, data: Sizes)
    requires WellFormed(fs) && TasksOk(fs, base) && id in fs.dirs && p !in fs.broken
    requires LinksReadable(fs, p, Folders(fs.dirs[id])) && Queue(p, Folders(fs.dirs[id]), anc) == []
    ensures var folders := Folders(fs.dirs[id]);
      TasksOk(fs, base + [Visit(p, id, anc)]) &&
      ResultOf(fs, base, (data + Cuts(p, folders, anc))[p := Node(FileSum(fs.dirs[id]), 0, Names(folders))])
        == ResultOf(fs, base + [Visit(p, id, anc)], data)
  {
    var folders := Folders(fs.dirs[id]);
    FoldersInFs(fs, id);
    NothingQueued(fs, p, folders, anc);
    AllCutTotal(fs, folders, anc);
    LastResult(fs, base, Visit(p, id, anc), data);
    LeafMap(data, Cuts(p, folders, anc), p, Node(FileSum(fs.dirs[id]), 0, Names(folders)));
  }

  lemma LeafMap(d: Sizes, c: Sizes, p: Path, n: Node)
    ensures (d + c)[p := n] == d + c[p := n]
  {
  }

  /** A directory that cannot be read dooms the whole traversal. */
  lemma UnreadableResult(fs: Fs, base: seq<Task>, p: Path, id: nat, anc: set<nat>, data: Sizes)
    requires WellFormed(fs) && TasksOk(fs, base) && id in fs.dirs
    requires p in fs.broken || !LinksReadable(fs, p, Folders(fs.dirs[id]))
    ensures TasksOk(fs, base + [Visit(p, id, anc)]) && ResultOf(fs, base + [Visit(p, id, anc)], data) == None
  {
    LastResult(fs, base, Visit(p, id, anc), data);
    FoldersInFs(fs, id);
    if ReadableAll(fs, p, Folders(fs.dirs[id]), anc) {
      ReadableLinks(fs, p, Folders(fs.dirs[id]), anc);
    }
  }

  lemma {:induction false} ReadableLinks(fs: Fs, p: Path, folders: seq<Entry>, anc: set<nat>)
    requires WellFormed(fs) && InFs(fs, folders) && ReadableAll(fs, p, folders, anc)
    ensures LinksReadable(fs, p, folders)
    decreases |folders|
  {
    if folders != [] {
      ReadableLinks(fs, p, folders[..|folders| - 1], anc);
    }
  }
}

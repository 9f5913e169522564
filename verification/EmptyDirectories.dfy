/** Removing the empty directories below a directory with a queue: a directory is listed,
    its subdirectories are queued, or it is removed and its parent is queued again. */
module EmptyDirectories {

  /** A directory below the one the request names, which is []. */
  type Path = seq<string>

  datatype Entry = Entry(name: string, dir: bool)

  function Parent(p: Path): Path
    requires p != []
  {
    p[..|p| - 1]
  }

  predicate Lists(es: seq<Entry>, name: string) {
    exists i :: 0 <= i < |es| && es[i].dir && es[i].name == name
  }

  /** What the directories held at first: a directory lists exactly the directories below
      it, each once. */
  ghost predicate TreeOk(fs: map<Path, seq<Entry>>) {
    && [] in fs
    && (forall p {:trigger Listed(fs, p)} :: p in fs ==> Listed(fs, p))
    && (forall p {:trigger ListsOwn(fs, p)} :: p in fs ==> ListsOwn(fs, p))
  }

  /** p is listed by the directory above it. */
  predicate Listed(fs: map<Path, seq<Entry>>, p: Path) {
    p != [] ==> Parent(p) in fs && Lists(fs[Parent(p)], p[|p| - 1])
  }

  predicate ListsOwn(fs: map<Path, seq<Entry>>, p: Path)
    requires p in fs
  {
    Distinct(fs[p]) && forall i :: 0 <= i < |fs[p]| && fs[p][i].dir ==> p + [fs[p][i].name] in fs
  }

  predicate Distinct(es: seq<Entry>) {
    forall i, j :: 0 <= i < j < |es| && es[i].dir && es[j].dir ==> es[i].name != es[j].name
  }

  /** The entries left when only the directories in `alive` are left. */
  function Left(p: Path, es: seq<Entry>, alive: set<Path>): seq<Entry> {
    if es == [] then []
    else (if !es[0].dir || p + [es[0].name] in alive then [es[0]] else []) + Left(p, es[1..], alive)
  }

  /** The subdirectories that a listing queues. */
  function Subdirs(p: Path, es: seq<Entry>): seq<Path> {
    if es == [] then []
    else (if es[0].dir then [p + [es[0].name]] else []) + Subdirs(p, es[1..])
  }

  /*** the result, without a queue ***/

  /** There is a file in p or below it. */
  ghost predicate HasFile(fs: map<Path, seq<Entry>>, p: Path) {
    exists q :: q in fs && p <= q && OwnFile(fs[q])
  }

  predicate OwnFile(es: seq<Entry>) {
    exists i :: 0 <= i < |es| && !es[i].dir
  }

  /** What pruning from the leaves up leaves: the top, and what holds a file. */
  ghost function Pruned(fs: map<Path, seq<Entry>>): set<Path> {
    set p | p in fs && (p == [] || HasFile(fs, p))
  }

  /*** listings ***/

  lemma {:induction false} LeftEmpty(p: Path, es: seq<Entry>, alive: set<Path>)
    ensures Left(p, es, alive) == [] <==> forall i :: 0 <= i < |es| ==> es[i].dir && p + [es[i].name] !in alive
    decreases |es|
  {
    if es != [] {
      LeftEmpty(p, es[1..], alive);
      assert forall i :: 0 <= i < |es[1..]| ==> es[1..][i] == es[i + 1];
      forall i | 0 <= i < |es| ensures i > 0 ==> es[i] == es[1..][i - 1] {
      }
    }
  }

  lemma {:induction false} SubdirsLeft(p: Path, es: seq<Entry>, alive: set<Path>, q: Path)
    ensures q in Subdirs(p, Left(p, es, alive)) <==> q in alive && q != [] && Parent(q) == p && Lists(es, q[|q| - 1])
    decreases |es|
  {
    if es != [] {
      SubdirsLeft(p, es[1..], alive, q);
      LeftCons(p, es, alive);
      SubdirsCons(p, es[0], Left(p, es[1..], alive));
      if q != [] && Parent(q) == p {
        assert q == p + [q[|q| - 1]];
        ListsCons(es, q[|q| - 1]);
      }
    }
  }

  lemma LeftCons(p: Path, es: seq<Entry>, alive: set<Path>)
    requires es != []
    ensures var rest := Left(p, es[1..], alive);
      Left(p, es, alive) == if !es[0].dir || p + [es[0].name] in alive then [es[0]] + rest else rest
  {
  }

  lemma SubdirsCons(p: Path, e: Entry, es: seq<Entry>)
    ensures Subdirs(p, [e] + es) == (if e.dir then [p + [e.name]] else []) + Subdirs(p, es)
  {
    assert ([e] + es)[1..] == es;
  }

  lemma ListsCons(es: seq<Entry>, name: string)
    requires es != []
    ensures Lists(es, name) <==> (es[0].dir && es[0].name == name) || Lists(es[1..], name)
  {
    if i :| 0 <= i < |es| && es[i].dir && es[i].name == name {
      assert i > 0 ==> es[1..][i - 1] == es[i];
    }
    if i :| 0 <= i < |es[1..]| && es[1..][i].dir && es[1..][i].name == name {
      assert es[i + 1] == es[1..][i];
    }
  }

  /*** the queue's work ***/

  /** The directories left in p and below. */
  function Below(alive: set<Path>, p: Path): set<Path> {
    set d | d in alive && p <= d
  }

  function Work(alive: set<Path>, p: Path): nat {
    |Below(alive, p)| + if p in alive then 0 else 1
  }

  function QueueWork(alive: set<Path>, queue: seq<Path>): nat {
    if queue == [] then 0 else Work(alive, queue[0]) + QueueWork(alive, queue[1..])
  }

  lemma {:induction false} QueueWorkAppend(alive: set<Path>, a: seq<Path>, b: seq<Path>)
    ensures QueueWork(alive, a + b) == QueueWork(alive, a) + QueueWork(alive, b)
    decreases |a|
  {
    if a == [] {
      assert a + b == b;
    } else {
      assert (a + b)[1..] == a[1..] + b;
      QueueWorkAppend(alive, a[1..], b);
    }
  }

  /** Directories left strictly below p, under a name that es lists. */
  function Under(alive: set<Path>, p: Path, es: seq<Entry>): set<Path> {
    set d | d in alive && |d| > |p| && p <= d && Lists(es, d[|p|])
  }

  /** Queueing the subdirectories of p makes no more work than there are directories left
      below p. */
  lemma {:induction false} SubdirsWork(alive: set<Path>, p: Path, es: seq<Entry>)
    requires Distinct(es)
    ensures QueueWork(alive, Subdirs(p, Left(p, es, alive))) <= |Under(alive, p, es)|
    decreases |es|
  {
    if es != [] {
      var rest := Left(p, es[1..], alive);
      DistinctTail(es);
      SubdirsWork(alive, p, es[1..]);
      UnderCons(alive, p, es);
      LeftCons(p, es, alive);
      SubdirsCons(p, es[0], rest);
      var child := p + [es[0].name];
      if es[0].dir && child in alive {
        QueueWorkAppend(alive, [child], Subdirs(p, rest));
        assert QueueWork(alive, [child]) == |Below(alive, child)|;
        FirstUnder(alive, p, es);
      } else {
        assert Subdirs(p, Left(p, es, alive)) == Subdirs(p, rest);
        Grows(Under(alive, p, es[1..]), Under(alive, p, es));
      }
    }
  }

  lemma DistinctTail(es: seq<Entry>)
    requires Distinct(es) && es != []
    ensures Distinct(es[1..])
  {
    assert forall i :: 0 <= i < |es[1..]| ==> es[1..][i] == es[i + 1];
  }

  lemma UnderCons(alive: set<Path>, p: Path, es: seq<Entry>)
    requires es != []
    ensures Under(alive, p, es[1..]) <= Under(alive, p, es)
    ensures es[0].dir ==> Below(alive, p + [es[0].name]) <= Under(alive, p, es)
  {
    forall d | d in Under(alive, p, es[1..]) ensures d in Under(alive, p, es) {
      ListsCons(es, d[|p|]);
    }
    var child := p + [es[0].name];
    forall d | es[0].dir && d in Below(alive, child) ensures d in Under(alive, p, es) {
      assert d[..|child|] == child;
      assert d[..|p|] == child[..|p|] == p;
      ListsCons(es, d[|p|]);
    }
  }

  lemma FirstUnder(alive: set<Path>, p: Path, es: seq<Entry>)
    requires Distinct(es) && es != [] && es[0].dir
    ensures |Below(alive, p + [es[0].name])| + |Under(alive, p, es[1..])| <= |Under(alive, p, es)|
  {
    var child := p + [es[0].name];
    UnderCons(alive, p, es);
    forall d | d in Below(alive, child) ensures |d| > |p| && d[|p|] == es[0].name {
      assert d[..|child|] == child;
    }
    forall d | d in Under(alive, p, es[1..]) ensures d[|p|] != es[0].name {
      var i :| 0 <= i < |es[1..]| && es[1..][i].dir && es[1..][i].name == d[|p|];
      assert es[i + 1] == es[1..][i];
    }
    assert Below(alive, child) !! Under(alive, p, es[1..]);
    Grows(Below(alive, child) + Under(alive, p, es[1..]), Under(alive, p, es));
  }

  lemma {:induction false} Grows(a: set<Path>, b: set<Path>)
    requires a <= b
    ensures |a| <= |b|
  {
    var rest := b - a;
    assert b == a + rest;
  }

  /*** the invariant ***/

  /** p or a directory above it is queued. */
  ghost predicate Queued(queue: seq<Path>, p: Path) {
    exists i :: 0 <= i < |queue| && queue[i] <= p
  }

  /** A directory stays with those above it; no directory with a file was removed. */
  ghost predicate AliveOk(fs: map<Path, seq<Entry>>, alive: set<Path>) {
    && [] in alive && alive <= fs.Keys
    && (forall p {:trigger UpAlive(alive, p)} :: p in alive ==> UpAlive(alive, p))
    && (forall p {:trigger OwnFile(fs[p])} :: p in fs && OwnFile(fs[p]) ==> p in alive)
  }

  predicate UpAlive(alive: set<Path>, p: Path) {
    p != [] ==> Parent(p) in alive
  }

  /** A directory that is not queued, nor below one that is, is not empty. */
  ghost predicate QueueOk(fs: map<Path, seq<Entry>>, alive: set<Path>, queue: seq<Path>) {
    && (forall i :: 0 <= i < |queue| ==> queue[i] in fs && queue[i] != [])
    && (forall p {:trigger Settled(fs, alive, queue, p)} :: p in alive ==> Settled(fs, alive, queue, p))
  }

  ghost predicate Settled(fs: map<Path, seq<Entry>>, alive: set<Path>, queue: seq<Path>, p: Path) {
    p in fs && p != [] && !Queued(queue, p) ==> Left(p, fs[p], alive) != []
  }

  lemma {:induction false} PrefixAlive(fs: map<Path, seq<Entry>>, alive: set<Path>, p: Path, q: Path)
    requires AliveOk(fs, alive) && q in alive && p <= q
    ensures p in alive
    decreases |q|
  {
    if p != q {
      assert p <= Parent(q) && UpAlive(alive, q);
      PrefixAlive(fs, alive, p, Parent(q));
    }
  }

  class FileServer {
    /** The directories as they were, and those that are left. */
    const fs: map<Path, seq<Entry>>
    var alive: set<Path>

    constructor (fs: map<Path, seq<Entry>>)
      ensures this.fs == fs && alive == fs.Keys
    {
      this.fs := fs;
      alive := fs.Keys;
    }

    /** A complete listing of a directory that is there. */
    method List(p: Path) returns (es: seq<Entry>)
      requires p in fs && p in alive
      ensures es == Left(p, fs[p], alive)
    {
      es := Left(p, fs[p], alive);
    }

    /** Removes the empty directories below the top.  It lists only directories that are there,
        never removes one with a file in or below it, and when it does not give up leaves
        exactly what pruning leaves.  It gives up exactly if some directory cannot be listed
        or some directory without files cannot be removed. */
    method RemoveEmptyDirectories(unlistable: set<Path>, unremovable: set<Path>) returns (ok: bool)
      requires TreeOk(fs) && alive == fs.Keys
      modifies this
      ensures AliveOk(fs, alive)
      ensures ok ==> alive == Pruned(fs)
      ensures ok <==> unlistable !! fs.Keys && unremovable !! fs.Keys - Pruned(fs)
    {
      if [] in unlistable {
        FirstQueue(fs);
        return false;
      }
      var rootFiles := List([]);
      var removingFiles := Subdirs([], rootFiles);
      var removedFiles: set<Path> := {};
      ghost var listed: set<Path> := {[]};
      FirstQueue(fs);
      while removingFiles != []
        invariant InOrder(fs, alive, listed, removingFiles) && removedFiles == fs.Keys - alive
        invariant unlistable !! listed && unremovable !! removedFiles
        decreases |alive|, QueueWork(alive, removingFiles)
      {
        var removingFile := removingFiles[0];
        ghost var queue := removingFiles;
        removingFiles := removingFiles[1..];
        if removingFile in removedFiles {
          Skipped(fs, alive, listed, queue);
          continue;
        }
        if removingFile in unlistable {
          return false;
        }
        var subFiles := List(removingFile);
        listed := listed + {removingFile};
        if subFiles == [] {
          NothingInside(fs, alive, removingFile);
          if removingFile in unremovable {
            return false;
          }
          Removed(fs, alive, alive - {removingFile}, listed, queue, queue[1..] + Again(removingFile));
          alive := alive - {removingFile};
          removedFiles := removedFiles + {removingFile};
          if |removingFile| > 1 {
            removingFiles := removingFiles + [Parent(removingFile)];
          }
          assert removingFiles == queue[1..] + Again(removingFile);
        } else {
          Expanded(fs, alive, listed, queue);
          removingFiles := removingFiles + Subdirs(removingFile, subFiles);
        }
      }
      AllPruned(fs, alive);
      AllListed(fs, alive, listed);
      return true;
    }
  }

  /** Every directory was listed, or is queued or below one that is; what is gone was listed. */
  ghost predicate ListedOk(fs: map<Path, seq<Entry>>, alive: set<Path>, listed: set<Path>, queue: seq<Path>) {
    && fs.Keys - alive <= listed <= fs.Keys
    && forall p {:trigger Queued(queue, p)} :: p in fs ==> p in listed || Queued(queue, p)
  }

  /** What holds between two turns of the loop. */
  ghost predicate InOrder(fs: map<Path, seq<Entry>>, alive: set<Path>, listed: set<Path>, queue: seq<Path>) {
    AliveOk(fs, alive) && QueueOk(fs, alive, queue) && ListedOk(fs, alive, listed, queue)
  }

  lemma Skipped(fs: map<Path, seq<Entry>>, alive: set<Path>, listed: set<Path>, queue: seq<Path>)
    requires TreeOk(fs) && InOrder(fs, alive, listed, queue) && queue != [] && queue[0] !in alive
    ensures InOrder(fs, alive, listed, queue[1..]) && QueueWork(alive, queue[1..]) < QueueWork(alive, queue)
  {
    DropRemoved(fs, alive, queue);
    ListedMore(fs, alive, listed, queue, queue[1..]);
  }

  lemma Removed(fs: map<Path, seq<Entry>>, alive: set<Path>, alive': set<Path>, listed: set<Path>, queue: seq<Path>,
                queue': seq<Path>)
    requires TreeOk(fs) && InOrder(fs, alive, listed, queue)
    requires queue != [] && queue[0] in alive && alive' == alive - {queue[0]} && queue[0] in listed
    requires Left(queue[0], fs[queue[0]], alive) == [] && queue' == queue[1..] + Again(queue[0])
    ensures InOrder(fs, alive', listed, queue') && |alive'| < |alive|
  {
    RemoveKeeps(fs, alive, alive', queue, queue', queue[0]);
    ListedMore(fs, alive', listed, queue, queue');
  }

  lemma Expanded(fs: map<Path, seq<Entry>>, alive: set<Path>, listed: set<Path>, queue: seq<Path>)
    requires TreeOk(fs) && InOrder(fs, alive, listed, queue) && queue != [] && queue[0] in alive && queue[0] in listed
    requires Left(queue[0], fs[queue[0]], alive) != []
    ensures var queue' := queue[1..] + Subdirs(queue[0], Left(queue[0], fs[queue[0]], alive));
      InOrder(fs, alive, listed, queue') && QueueWork(alive, queue') < QueueWork(alive, queue)
  {
    ExpandKeeps(fs, alive, queue);
    ListedBelow(fs, alive, listed, queue);
  }

  lemma AllListed(fs: map<Path, seq<Entry>>, alive: set<Path>, listed: set<Path>)
    requires ListedOk(fs, alive, listed, [])
    ensures listed == fs.Keys
  {
    forall p | p in fs ensures p in listed {
      assert !Queued([], p);
    }
  }

  /** The first one was listed, and what was below it is gone. */
  lemma ListedMore(fs: map<Path, seq<Entry>>, alive: set<Path>, listed: set<Path>, queue: seq<Path>,
                   queue': seq<Path>)
    requires TreeOk(fs) && AliveOk(fs, alive) && queue != [] && queue[0] in fs && queue[0] !in alive
    requires fs.Keys - alive <= listed <= fs.Keys
    requires forall p {:trigger Queued(queue, p)} :: p in fs ==> p in listed || Queued(queue, p)
    requires |queue'| >= |queue| - 1 && queue'[..|queue| - 1] == queue[1..]
    ensures ListedOk(fs, alive, listed, queue')
  {
    forall p | p in fs ensures p in listed || Queued(queue', p) {
      StillQueued(queue, queue', p);
      if queue[0] <= p && p in alive {
        PrefixAlive(fs, alive, queue[0], p);
      }
    }
  }

  /** The first one was listed, and what it lists is queued. */
  lemma ListedBelow(fs: map<Path, seq<Entry>>, alive: set<Path>, listed: set<Path>, queue: seq<Path>)
    requires TreeOk(fs) && AliveOk(fs, alive) && queue != [] && queue[0] in alive && queue[0] in listed
    requires ListedOk(fs, alive, listed, queue)
    ensures ListedOk(fs, alive, listed, queue[1..] + Subdirs(queue[0], Left(queue[0], fs[queue[0]], alive)))
  {
    var q := queue[0];
    var queue' := queue[1..] + Subdirs(q, Left(q, fs[q], alive));
    forall p | p in fs ensures p in listed || Queued(queue', p) {
      StillQueued(queue, queue', p);
      if p in alive && q <= p && q != p {
        ChildOf(fs, alive, q, p);
        SubdirsLeft(q, fs[q], alive, p[..|q| + 1]);
        QueuedBy(queue', p[..|q| + 1], p);
      }
    }
  }

  /** What lists nothing has no file in or below it. */
  lemma NothingInside(fs: map<Path, seq<Entry>>, alive: set<Path>, q: Path)
    requires TreeOk(fs) && AliveOk(fs, alive) && q in alive && q != [] && Left(q, fs[q], alive) == []
    ensures q !in Pruned(fs)
  {
    LeftEmpty(q, fs[q], alive);
    if HasFile(fs, q) {
      var r :| r in fs && q <= r && OwnFile(fs[r]);
      if r != q {
        NothingBelow(fs, alive, q, r);
      }
      assert false;
    }
  }

  lemma FirstQueue(fs: map<Path, seq<Entry>>)
    requires TreeOk(fs)
    ensures AliveOk(fs, fs.Keys) && QueueOk(fs, fs.Keys, Subdirs([], Left([], fs[[]], fs.Keys)))
    ensures ListedOk(fs, fs.Keys, {[]}, Subdirs([], Left([], fs[[]], fs.Keys)))
  {
    var queue := Subdirs([], Left([], fs[[]], fs.Keys));
    forall p | p in fs ensures UpAlive(fs.Keys, p) {
      assert Listed(fs, p);
    }
    forall i | 0 <= i < |queue| ensures queue[i] in fs && queue[i] != [] {
      SubdirsLeft([], fs[[]], fs.Keys, queue[i]);
    }
    forall p | p in fs && p != [] ensures Queued(queue, p) {
      ChildOf(fs, fs.Keys, [], p);
      SubdirsLeft([], fs[[]], fs.Keys, p[..1]);
      QueuedBy(queue, p[..1], p);
    }
  }

  /** The directory on the way from q to p is one of q's subdirectories. */
  lemma {:induction false} ChildOf(fs: map<Path, seq<Entry>>, alive: set<Path>, q: Path, p: Path)
    requires TreeOk(fs) && AliveOk(fs, alive) && p in alive && q <= p && q != p
    ensures var c := p[..|q| + 1]; c in alive && Parent(c) == q && q in fs && Lists(fs[q], c[|c| - 1])
  {
    var c := p[..|q| + 1];
    PrefixAlive(fs, alive, c, p);
    assert Parent(c) == q && Listed(fs, c);
  }

  lemma DropRemoved(fs: map<Path, seq<Entry>>, alive: set<Path>, queue: seq<Path>)
    requires AliveOk(fs, alive) && QueueOk(fs, alive, queue) && queue != [] && queue[0] !in alive
    ensures QueueOk(fs, alive, queue[1..]) && QueueWork(alive, queue[1..]) < QueueWork(alive, queue)
  {
    forall p | p in alive ensures Settled(fs, alive, queue[1..], p) {
      assert Settled(fs, alive, queue, p);
      if queue[0] <= p {
        PrefixAlive(fs, alive, queue[0], p);
      }
      StillQueued(queue, queue[1..], p);
    }
  }

  lemma QueuedBy(queue: seq<Path>, c: Path, p: Path)
    requires c in queue && c <= p
    ensures Queued(queue, p)
  {
  }

  /** A directory queued by another than the first stays queued. */
  lemma StillQueued(queue: seq<Path>, queue': seq<Path>, p: Path)
    requires queue != [] && |queue'| >= |queue| - 1 && queue'[..|queue| - 1] == queue[1..]
    ensures Queued(queue, p) && !(queue[0] <= p) ==> Queued(queue', p)
  {
    if Queued(queue, p) && !(queue[0] <= p) {
      var i :| 0 <= i < |queue| && queue[i] <= p;
      assert queue'[..|queue| - 1][i - 1] == queue[1..][i - 1] == queue[i];
      assert queue'[i - 1] == queue[i];
    }
  }

  lemma RemoveKeeps(fs: map<Path, seq<Entry>>, alive: set<Path>, alive': set<Path>, queue: seq<Path>, queue': seq<Path>,
                    q: Path)
    requires TreeOk(fs) && AliveOk(fs, alive) && QueueOk(fs, alive, queue)
    requires queue != [] && queue[0] == q && q in alive && alive' == alive - {q}
    requires Left(q, fs[q], alive) == [] && queue' == queue[1..] + Again(q)
    ensures AliveOk(fs, alive') && |alive'| < |alive| && QueueOk(fs, alive', queue')
  {
    LeafRemoved(fs, alive, q);
    QueueIn(fs, queue, queue');
    forall p | p in alive' ensures Settled(fs, alive', queue', p) {
      if p != [] && !Queued(queue', p) {
        StillNotEmpty(fs, alive, queue, queue', p);
      }
    }
  }

  /** What is queued when p was removed: its parent, unless that is the top. */
  function Again(p: Path): seq<Path>
    requires p != []
  {
    if |p| > 1 then [Parent(p)] else []
  }

  lemma QueueIn(fs: map<Path, seq<Entry>>, queue: seq<Path>, queue': seq<Path>)
    requires TreeOk(fs) && queue != [] && forall i :: 0 <= i < |queue| ==> queue[i] in fs && queue[i] != []
    requires queue' == queue[1..] + Again(queue[0])
    ensures forall i :: 0 <= i < |queue'| ==> queue'[i] in fs && queue'[i] != []
  {
    assert Listed(fs, queue[0]);
  }

  lemma StillNotEmpty(fs: map<Path, seq<Entry>>, alive: set<Path>, queue: seq<Path>, queue': seq<Path>, p: Path)
    requires TreeOk(fs) && AliveOk(fs, alive) && QueueOk(fs, alive, queue) && queue != [] && queue[0] in alive
    requires Left(queue[0], fs[queue[0]], alive) == [] && p in alive - {queue[0]} && p != []
    requires |queue'| >= |queue| - 1 && queue'[..|queue| - 1] == queue[1..]
      && (|queue[0]| > 1 ==> Parent(queue[0]) in queue')
    requires !Queued(queue', p)
    ensures Left(p, fs[p], alive - {queue[0]}) != []
  {
    var q := queue[0];
    assert Settled(fs, alive, queue, p);
    StillQueued(queue, queue', p);
    NothingBelow(fs, alive, q, p);
    if |q| > 1 && Parent(q) == p {
      QueuedBy(queue', p, p);
    } else {
      SameLeft(p, fs[p], alive, alive - {q}, q);
    }
  }

  /** An empty directory has no directory left below it. */
  lemma NothingBelow(fs: map<Path, seq<Entry>>, alive: set<Path>, q: Path, p: Path)
    requires TreeOk(fs) && AliveOk(fs, alive) && q in fs && Left(q, fs[q], alive) == [] && p in alive && p != q
    ensures !(q <= p) && (p != [] ==> Parent(p) != q)
  {
    LeftEmpty(q, fs[q], alive);
    var c := p[..if |q| < |p| then |q| + 1 else |p|];
    assert |q| < |p| && q <= p ==> c == q + [c[|c| - 1]];
    if q <= p {
      ChildOf(fs, alive, q, p);
    }
  }

  lemma LeafRemoved(fs: map<Path, seq<Entry>>, alive: set<Path>, q: Path)
    requires TreeOk(fs) && AliveOk(fs, alive) && q in alive && q != [] && Left(q, fs[q], alive) == []
    ensures AliveOk(fs, alive - {q}) && |alive - {q}| < |alive|
  {
    LeftEmpty(q, fs[q], alive);
    assert !OwnFile(fs[q]);
    forall p | p in alive - {q} ensures UpAlive(alive - {q}, p) {
      assert UpAlive(alive, p);
      NothingBelow(fs, alive, q, p);
    }
    forall p | p in fs && OwnFile(fs[p]) ensures p in alive - {q} {
    }
    assert |alive - {q}| == |alive| - 1;
  }

  lemma {:induction false} SameLeft(p: Path, es: seq<Entry>, alive: set<Path>, alive': set<Path>, q: Path)
    requires alive' == alive - {q} && q != [] && Parent(q) != p
    ensures Left(p, es, alive') == Left(p, es, alive)
    decreases |es|
  {
    if es != [] {
      SameLeft(p, es[1..], alive, alive', q);
      assert Parent(p + [es[0].name]) == p;
    }
  }

  lemma ExpandKeeps(fs: map<Path, seq<Entry>>, alive: set<Path>, queue: seq<Path>)
    requires TreeOk(fs) && AliveOk(fs, alive) && QueueOk(fs, alive, queue) && queue != [] && queue[0] in alive
    requires Left(queue[0], fs[queue[0]], alive) != []
    ensures var queue' := queue[1..] + Subdirs(queue[0], Left(queue[0], fs[queue[0]], alive));
      QueueOk(fs, alive, queue') && QueueWork(alive, queue') < QueueWork(alive, queue)
  {
    var q := queue[0];
    var subdirs := Subdirs(q, Left(q, fs[q], alive));
    var queue' := queue[1..] + subdirs;
    forall i | 0 <= i < |subdirs| ensures subdirs[i] in fs && subdirs[i] != [] {
      SubdirsLeft(q, fs[q], alive, subdirs[i]);
    }
    forall p | p in alive ensures Settled(fs, alive, queue', p) {
      assert Settled(fs, alive, queue, p);
      StillQueued(queue, queue', p);
      if q <= p && q != p {
        ChildOf(fs, alive, q, p);
        SubdirsLeft(q, fs[q], alive, p[..|q| + 1]);
        QueuedBy(queue', p[..|q| + 1], p);
      }
    }
    assert ListsOwn(fs, q);
    SubdirsWork(alive, q, fs[q]);
    QueueWorkAppend(alive, queue[1..], subdirs);
    LessBelow(alive, q, fs[q]);
  }

  lemma LessBelow(alive: set<Path>, q: Path, es: seq<Entry>)
    requires q in alive
    ensures |Under(alive, q, es)| < |Below(alive, q)|
  {
    Grows(Under(alive, q, es) + {q}, Below(alive, q));
  }

  /** With nothing queued, every directory left holds a file, or one below it does. */
  lemma {:induction false} HoldsFile(fs: map<Path, seq<Entry>>, alive: set<Path>, p: Path)
    requires TreeOk(fs) && AliveOk(fs, alive) && QueueOk(fs, alive, []) && p in alive && p != []
    ensures HasFile(fs, p)
    decreases |Below(alive, p)|
  {
    LeftEmpty(p, fs[p], alive);
    assert Settled(fs, alive, [], p);
    var i :| 0 <= i < |fs[p]| && !(fs[p][i].dir && p + [fs[p][i].name] !in alive);
    if fs[p][i].dir {
      var c := p + [fs[p][i].name];
      assert p !in Below(alive, c);
      Grows(Below(alive, c) + {p}, Below(alive, p));
      HoldsFile(fs, alive, c);
      var q :| q in fs && c <= q && OwnFile(fs[q]);
      assert p <= q;
    }
  }

  lemma AllPruned(fs: map<Path, seq<Entry>>, alive: set<Path>)
    requires TreeOk(fs) && AliveOk(fs, alive) && QueueOk(fs, alive, [])
    ensures alive == Pruned(fs)
  {
    forall p | p in alive ensures p in Pruned(fs) {
      if p != [] {
        HoldsFile(fs, alive, p);
      }
    }
    forall p | p in Pruned(fs) ensures p in alive {
      if p != [] {
        var q :| q in fs && p <= q && OwnFile(fs[q]);
        PrefixAlive(fs, alive, p, q);
      }
    }
  }
}

/** The outcome of transfers path by path: which file the destination has in the end, and
    what the group hands on when it ends, said about the source and the old destination
    alone. */
module TransferOutcome {
  import opened Wrappers
  import opened TaskGroup
  import opened Transfer
  import opened TransferResult

  /*** source objects by path ***/

  function EntryNamed(es: Entries, name: string): Option<Tree> {
    if es.Nil? then None else if es.name == name then Some(es.tree) else EntryNamed(es.rest, name)
  }

  /** The object that q leads to from t. */
  function ObjectAt(t: Tree, q: Path): Option<Tree>
    decreases |q|
  {
    if q == [] then Some(t)
    else if t.File? then None
    else match EntryNamed(t.entries, q[0])
      case None => None
      case Some(u) => ObjectAt(u, q[1..])
  }

  /** The object of the transfer's source that goes to p. */
  function ObjectFor(job: Job, p: Path): Option<Tree> {
    if job.path <= p then ObjectAt(job.tree, p[|job.path|..]) else None
  }

  predicate Gives(job: Job, p: Path) {
    ObjectFor(job, p).Some? && ObjectFor(job, p).value.File?
  }

  /** The transfer is to leave the file that is at p: it has the source file's size and that
      was asked for, or it was found by the merge of a directory. */
  predicate Keeps(job: Job, was: Files, p: Path)
    requires Gives(job, p)
  {
    p in was &&
    match job.mode
    case Copy(skipExisting) => skipExisting && |was[p]| == |ObjectFor(job, p).value.content|
    case Move => false
    case Merge => job.tree.Dir?
  }

  /** No old file is to be set aside under a name that is some file's own. */
  predicate NamesApart(apart: bool, was: Files, jobs: seq<Job>) {
    apart ==>
      forall i, p |
        0 <= i < |jobs| && p in was && Gives(jobs[i], p) && !Keeps(jobs[i], was, p) && was[p] != [] ::
      Aside(p) !in was && forall j :: 0 <= j < |jobs| ==> !Gives(jobs[j], Aside(p))
  }

  /*** the goals are the source's files ***/

  lemma {:induction false} NamedIn(es: Entries, name: string)
    ensures EntryNamed(es, name).Some? <==> name in Names(es)
  {
    if es.Cons? {
      NamedIn(es.rest, name);
    }
  }

  predicate GoalAt(goals: Goals, p: Path, mode: Mode, source: Option<Tree>) {
    if source.Some? && source.value.File? then p in goals && goals[p] == Goal(mode, source.value.content)
    else p !in goals
  }

  lemma {:induction false} TreeGoalsAre(mode: Mode, t: Tree, path: Path, p: Path)
    requires TreeOk(t)
    ensures GoalAt(TreeGoals(mode, t, path), p, mode, if path <= p then ObjectAt(t, p[|path|..]) else None)
    decreases t, 1
  {
    if t.Dir? {
      EntryGoalsAre(mode, t.entries, path, p);
    } else {
      assert path <= p && p[|path|..] == [] <==> p == path;
    }
  }

  lemma {:induction false} EntryGoalsAre(mode: Mode, es: Entries, path: Path, p: Path)
    requires EntriesOk(es)
    ensures GoalAt(EntryGoals(mode, es, path), p, mode,
                   if path <= p && |p| > |path| then ObjectAt(Dir(es), p[|path|..]) else None)
    decreases es, 0
  {
    if es.Cons? {
      var c := path + [es.name];
      EntryGoalsAre(mode, es.rest, path, p);
      TreeGoalsAre(mode, es.tree, c, p);
      if path <= p && |p| > |path| {
        assert c <= p <==> p[|path|] == es.name;
        NamedIn(es.rest, es.name);
        assert p[|path|..][1..] == p[|c|..];
      }
    }
  }

  lemma JobGoalsAre(job: Job, p: Path)
    requires TreeOk(job.tree)
    ensures p in JobGoals(job) <==> Gives(job, p)
    ensures Gives(job, p) ==> JobGoals(job)[p] == Goal(TaskMode(job.mode, job.tree), ObjectFor(job, p).value.content)
    ensures forall was :: Gives(job, p) ==> (Writes(was, p, JobGoals(job)[p]) <==> !Keeps(job, was, p))
  {
    TreeGoalsAre(TaskMode(job.mode, job.tree), job.tree, job.path, p);
  }

  /** The clash of names, said without the plan. */
  lemma NamesApartIff(apart: bool, was: Files, jobs: seq<Job>)
    requires JobsOk(jobs)
    ensures NamesApart(apart, was, jobs) <==> NoClash(PlanFor(apart, was, jobs))
  {
    var c := PlanFor(apart, was, jobs);
    if NamesApart(apart, was, jobs) {
      forall p | p in c.target && MovedAt(c, p) ensures Aside(p) !in c.target && Aside(p) !in c.was {
        var i := TargetFrom(jobs, p);
        JobGoalsAre(jobs[i], p);
        TargetAt(jobs, i, p);
        if Aside(p) in c.target {
          var j := TargetFrom(jobs, Aside(p));
          JobGoalsAre(jobs[j], Aside(p));
          assert false;
        }
      }
    }
    if NoClash(c) && apart {
      forall i, p | 0 <= i < |jobs| && p in was && Gives(jobs[i], p) && !Keeps(jobs[i], was, p) && was[p] != []
        ensures Aside(p) !in was && forall j :: 0 <= j < |jobs| ==> !Gives(jobs[j], Aside(p))
      {
        JobGoalsAre(jobs[i], p);
        TargetAt(jobs, i, p);
        assert MovedAt(c, p);
        forall j | 0 <= j < |jobs| ensures !Gives(jobs[j], Aside(p)) {
          JobGoalsAre(jobs[j], Aside(p));
          if Gives(jobs[j], Aside(p)) {
            TargetAt(jobs, j, Aside(p));
            assert false;
          }
        }
      }
    }
  }

  /** When all tasks of all transfers have ended and none failed, in whatever order they ran:
      a path to which some transfer's source has a file holds that file, unless the transfer
      was to leave what was there; every other path is as it was. */
  lemma EachPathHolds(apart: bool, was: Files, jobs: seq<Job>, es: seq<Event>, p: Path)
    requires JobsOk(jobs) && NamesApart(apart, was, jobs) && NoFailure(es)
    requires Run(apart, Init(was, jobs), es).Some? && AllClosed(Run(apart, Init(was, jobs), es).value)
    ensures var dst := Run(apart, Init(was, jobs), es).value.dst;
      && (forall i :: 0 <= i < |jobs| && Gives(jobs[i], p) ==>
            p in dst && dst[p] == if Keeps(jobs[i], was, p) then was[p] else ObjectFor(jobs[i], p).value.content)
      && ((forall i :: 0 <= i < |jobs| ==> !Gives(jobs[i], p)) ==> SameAt(dst, was, p))
  {
    var target := Target(jobs);
    NamesApartIff(apart, was, jobs);
    AnyOrderSameResult(apart, was, jobs, es);
    forall i | 0 <= i < |jobs| && Gives(jobs[i], p)
      ensures p in Result(was, target)
      ensures Result(was, target)[p] == if Keeps(jobs[i], was, p) then was[p] else ObjectFor(jobs[i], p).value.content
    {
      JobGoalsAre(jobs[i], p);
      TargetAt(jobs, i, p);
    }
    if p in target {
      var i := TargetFrom(jobs, p);
      JobGoalsAre(jobs[i], p);
    }
  }

  /*** what the group hands on ***/

  /** The directories of an object that goes to path. */
  function TreeDirs(t: Tree, path: Path): set<Path> {
    if t.File? then {} else {path} + EntryDirs(t.entries, path)
  }

  function EntryDirs(es: Entries, path: Path): set<Path> {
    if es.Nil? then {} else TreeDirs(es.tree, path + [es.name]) + EntryDirs(es.rest, path)
  }

  predicate IsDir(source: Option<Tree>) {
    source.Some? && source.value.Dir?
  }

  lemma {:induction false} TreeDirsAre(t: Tree, path: Path, p: Path)
    requires TreeOk(t)
    ensures p in TreeDirs(t, path) <==> path <= p && IsDir(ObjectAt(t, p[|path|..]))
    decreases t, 1
  {
    if t.Dir? {
      EntryDirsAre(t.entries, path, p);
      assert path <= p && p[|path|..] == [] <==> p == path;
    }
  }

  lemma {:induction false} EntryDirsAre(es: Entries, path: Path, p: Path)
    requires EntriesOk(es)
    ensures p in EntryDirs(es, path) <==> path <= p && |p| > |path| && IsDir(ObjectAt(Dir(es), p[|path|..]))
    decreases es, 0
  {
    if es.Cons? {
      var c := path + [es.name];
      EntryDirsAre(es.rest, path, p);
      TreeDirsAre(es.tree, c, p);
      if path <= p && |p| > |path| {
        assert c <= p <==> p[|path|] == es.name;
        NamedIn(es.rest, es.name);
        assert p[|path|..][1..] == p[|c|..];
      }
    }
  }

  /** The directories that a task and those it will register have yet to report. */
  function DirsLeft(t: Task): set<Path> {
    match t
    case Asked(job) => TreeDirs(job.tree, job.path)
    case Queued(_, path, tree) => TreeDirs(tree, path)
    case Listing(_, path, left, _) => EntryDirs(left, path)
    case _ => {}
  }

  predicate LeftAt(s: State, i: nat, x: Path) {
    i < |s.tasks| && x in DirsLeft(s.tasks[i])
  }

  predicate DirOf(jobs: seq<Job>, i: nat, x: Path) {
    i < |jobs| && x in TreeDirs(jobs[i].tree, jobs[i].path)
  }

  predicate SourceOf(s: State, jobs: seq<Job>, i: nat, x: Path) {
    i < |jobs| <= |s.tasks| && jobs[i].mode.Move? && jobs[i].src == x && !s.tasks[i].Asked?
  }

  /** A directory is reported or left to a task, unless a task failed. */
  ghost predicate DirHandled(s: State, jobs: seq<Job>, x: Path, ok: bool) {
    && (DstPathToHook(x) in s.given || (exists i: nat :: LeftAt(s, i, x)) ==> exists i: nat :: DirOf(jobs, i, x))
    && (ok && (exists i: nat :: DirOf(jobs, i, x)) ==>
          DstPathToHook(x) in s.given || exists i: nat :: LeftAt(s, i, x))
  }

  ghost predicate SourceHandled(s: State, jobs: seq<Job>, x: Path) {
    SrcPathToRemove(x) in s.given <==> exists i: nat :: SourceOf(s, jobs, i, x)
  }

  ghost predicate Handled(s: State, jobs: seq<Job>, ok: bool) {
    && |jobs| <= |s.tasks|
    && (forall i :: 0 <= i < |jobs| && s.tasks[i].Asked? ==> s.tasks[i].job == jobs[i])
    && (forall i :: |jobs| <= i < |s.tasks| ==> !s.tasks[i].Asked?)
    && (forall x :: DirHandled(s, jobs, x, ok))
    && (forall x :: SourceHandled(s, jobs, x))
  }

  /** A step of task i moves directories from what is left to what is given, and neither
      loses nor makes up any; `ok` says that it may not drop any. */
  ghost predicate Passes(s: State, s': State, i: nat, ok: bool) {
    && i < |s.tasks| <= |s'.tasks| <= |s.tasks| + 1
    && (forall k :: 0 <= k < |s.tasks| && k != i ==> s'.tasks[k] == s.tasks[k])
    && (forall x :: PassedAt(s, s', i, x, ok))
  }

  predicate PassedAt(s: State, s': State, i: nat, x: Path, ok: bool)
    requires i < |s.tasks| <= |s'.tasks| <= |s.tasks| + 1
  {
    var now := x in DirsLeft(s'.tasks[i]) || (|s.tasks| < |s'.tasks| && x in DirsLeft(s'.tasks[|s.tasks|]));
    && (DstPathToHook(x) in s.given ==> DstPathToHook(x) in s'.given)
    && (DstPathToHook(x) in s'.given || now ==> DstPathToHook(x) in s.given || x in DirsLeft(s.tasks[i]))
    && (ok && x in DirsLeft(s.tasks[i]) ==> DstPathToHook(x) in s'.given || now)
  }

  lemma StepPasses(apart: bool, s: State, e: Event)
    requires Next(apart, s, e).Some?
    ensures Passes(s, Next(apart, s, e).value, e.i, Fine(e))
  {
    var s' := Next(apart, s, e).value;
    forall x ensures PassedAt(s, s', e.i, x, Fine(e)) {
      if s'.given != s.given {
        var given := s'.given[|s.given|];
        assert s'.given == s.given + [given];
      }
      if e.Start? || e.Begin? || e.Register? {
        match e
        case Start(i) => assert DirsLeft(s'.tasks[i]) == DirsLeft(s.tasks[i]);
        case Begin(i) =>
          var t := s.tasks[i];
          assert DirsLeft(t) == {t.path} + DirsLeft(s'.tasks[i]);
        case Register(i) =>
          var t := s.tasks[i];
          assert DirsLeft(t) == TreeDirs(t.left.tree, t.path + [t.left.name]) + DirsLeft(s'.tasks[i]);
      }
    }
  }

  lemma PassedHandled(s: State, s': State, jobs: seq<Job>, i: nat, x: Path, ok: bool, step: bool)
    requires DirHandled(s, jobs, x, ok) && Passes(s, s', i, step)
    ensures DirHandled(s', jobs, x, ok && step)
  {
    assert PassedAt(s, s', i, x, step);
    if exists k: nat :: LeftAt(s', k, x) {
      var k: nat :| LeftAt(s', k, x);
      if k != i && k < |s.tasks| {
        assert LeftAt(s, k, x);
      } else {
        assert LeftAt(s, i, x) || DstPathToHook(x) in s.given;
      }
    }
    if DstPathToHook(x) in s'.given && DstPathToHook(x) !in s.given {
      assert LeftAt(s, i, x);
    }
    if ok && step && (exists k: nat :: DirOf(jobs, k, x)) && DstPathToHook(x) !in s'.given {
      var k: nat :| LeftAt(s, k, x);
      if k != i {
        assert LeftAt(s', k, x);
      } else {
        assert LeftAt(s', i, x) || LeftAt(s', |s.tasks|, x);
      }
    }
  }

  lemma SourceStep(apart: bool, s: State, e: Event, jobs: seq<Job>, ok: bool, x: Path)
    requires Handled(s, jobs, ok) && Next(apart, s, e).Some?
    ensures SourceHandled(Next(apart, s, e).value, jobs, x)
  {
    var s' := Next(apart, s, e).value;
    assert SourceHandled(s, jobs, x);
    StepPasses(apart, s, e);
    forall i: nat | i != e.i ensures SourceOf(s', jobs, i, x) <==> SourceOf(s, jobs, i, x) {
      if i < |jobs| {
        assert s'.tasks[i] == s.tasks[i];
      }
    }
    if e.Start? {
      assert s.tasks[e.i].job == jobs[e.i];
      assert SourceOf(s', jobs, e.i, x) <==> jobs[e.i].mode.Move? && jobs[e.i].src == x;
      assert SrcPathToRemove(x) in s'.given <==> SrcPathToRemove(x) in s.given || SourceOf(s', jobs, e.i, x);
    } else {
      assert SourceOf(s', jobs, e.i, x) <==> SourceOf(s, jobs, e.i, x);
      assert SrcPathToRemove(x) in s'.given <==> SrcPathToRemove(x) in s.given;
    }
  }

  lemma StepHandled(apart: bool, s: State, e: Event, jobs: seq<Job>, ok: bool)
    requires Handled(s, jobs, ok) && Next(apart, s, e).Some?
    ensures Handled(Next(apart, s, e).value, jobs, ok && Fine(e))
  {
    var s' := Next(apart, s, e).value;
    StepPasses(apart, s, e);
    OneLess(apart, s, e);
    var ok' := ok && Fine(e);
    forall x ensures DirHandled(s', jobs, x, ok') {
      assert DirHandled(s, jobs, x, ok);
      PassedHandled(s, s', jobs, e.i, x, ok, Fine(e));
    }
    forall x ensures SourceHandled(s', jobs, x) {
      SourceStep(apart, s, e, jobs, ok, x);
    }
    forall k | 0 <= k < |s'.tasks| ensures s'.tasks[k].Asked? ==> k < |jobs| && s'.tasks[k].job == jobs[k] {
      assert k < |s.tasks| && k != e.i ==> s'.tasks[k] == s.tasks[k];
    }
  }

  lemma {:induction false} RunHandled(apart: bool, was: Files, jobs: seq<Job>, es: seq<Event>)
    requires Run(apart, Init(was, jobs), es).Some?
    ensures Handled(Run(apart, Init(was, jobs), es).value, jobs, NoFailure(es))
  {
    var s0 := Init(was, jobs);
    if es == [] {
      forall x ensures DirHandled(s0, jobs, x, true) && SourceHandled(s0, jobs, x) {
        assert forall i: nat :: LeftAt(s0, i, x) <==> DirOf(jobs, i, x);
      }
    } else {
      var before := es[..|es| - 1];
      RunHandled(apart, was, jobs, before);
      StepHandled(apart, Run(apart, s0, before).value, es[|es| - 1], jobs, NoFailure(before));
      NoFailureSnoc(es);
    }
  }

  /** At any time of any run, what was handed on or waits to be names the sources of the moves
      that were begun and directories that the transfers go to, and nothing else. */
  lemma HandsOnOnly(apart: bool, was: Files, jobs: seq<Job>, es: seq<Event>, x: Path)
    requires JobsOk(jobs) && Run(apart, Init(was, jobs), es).Some?
    ensures var s := Run(apart, Init(was, jobs), es).value;
      var payloads := Delivered(s.ended) + Gathered(s.groups, GROUP);
      && (SrcPathToRemove(x) in payloads <==> exists i: nat :: SourceOf(s, jobs, i, x))
      && (DstPathToHook(x) in payloads ==> exists i: nat :: DirFor(jobs, i, x))
  {
    var s := Run(apart, Init(was, jobs), es).value;
    RunHandled(apart, was, jobs, es);
    RunCounts(apart, was, jobs, es);
    OnlyThese(s, jobs, x, NoFailure(es));
  }

  predicate DirFor(jobs: seq<Job>, i: nat, x: Path) {
    i < |jobs| && IsDir(ObjectFor(jobs[i], x))
  }

  lemma OnlyThese(s: State, jobs: seq<Job>, x: Path, ok: bool)
    requires Handled(s, jobs, ok) && forall i :: 0 <= i < |jobs| ==> TreeOk(jobs[i].tree)
    ensures SrcPathToRemove(x) in s.given <==> exists i: nat :: SourceOf(s, jobs, i, x)
    ensures DstPathToHook(x) in s.given ==> exists i: nat :: DirFor(jobs, i, x)
  {
    assert DirHandled(s, jobs, x, ok) && SourceHandled(s, jobs, x);
    if DstPathToHook(x) in s.given {
      var i: nat :| DirOf(jobs, i, x);
      TreeDirsAre(jobs[i].tree, jobs[i].path, x);
      assert DirFor(jobs, i, x);
    }
  }

  /** And when all tasks have ended and none failed, it names every source of a move and
      every directory. */
  lemma HandsOnAll(apart: bool, was: Files, jobs: seq<Job>, es: seq<Event>, i: nat)
    requires JobsOk(jobs) && NoFailure(es) && i < |jobs|
    requires Run(apart, Init(was, jobs), es).Some? && AllClosed(Run(apart, Init(was, jobs), es).value)
    ensures var payloads := Delivered(Run(apart, Init(was, jobs), es).value.ended);
      && (jobs[i].mode.Move? ==> SrcPathToRemove(jobs[i].src) in payloads)
      && (forall x :: DirFor(jobs, i, x) ==> DstPathToHook(x) in payloads)
  {
    var s := Run(apart, Init(was, jobs), es).value;
    RunHandled(apart, was, jobs, es);
    GroupFollowsTasks(apart, was, jobs, es);
    assert Live(s.tasks) == {};
    if jobs[i].mode.Move? {
      assert SourceOf(s, jobs, i, jobs[i].src) && SourceHandled(s, jobs, jobs[i].src);
    }
    forall x | DirFor(jobs, i, x) ensures DstPathToHook(x) in s.given {
      TreeDirsAre(jobs[i].tree, jobs[i].path, x);
      assert DirOf(jobs, i, x) && DirHandled(s, jobs, x, true);
    }
  }
}

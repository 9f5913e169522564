/** What the tasks of transfers leave behind: the same files, whatever their order; and
    while they run, or when some fail, which files are as they were and which are not. */
module TransferResult {
  import opened Wrappers
  import opened TaskGroup
  import opened Transfer

  /*** the result, without any tasks ***/

  /** What is meant to become of a path: content of the source, under a mode. */
  datatype Goal = Goal(mode: Mode, content: Content)

  type Files = map<Path, Content>

  type Goals = map<Path, Goal>

  /** The entries of a directory that goes to path. */
  function EntryGoals(mode: Mode, es: Entries, path: Path): Goals {
    if es.Nil? then map[]
    else EntryGoals(mode, es.rest, path) + TreeGoals(mode, es.tree, path + [es.name])
  }

  function TreeGoals(mode: Mode, t: Tree, path: Path): Goals {
    match t
    case File(content) => map[path := Goal(mode, content)]
    case Dir(entries) => EntryGoals(mode, entries, path)
  }

  /** A task for a file does not look whether it is there, even in a merge. */
  function TaskMode(mode: Mode, t: Tree): Mode {
    if t.File? && mode.Merge? then Copy(false) else mode
  }

  function TaskGoals(mode: Mode, t: Tree, path: Path): Goals {
    TreeGoals(TaskMode(mode, t), t, path)
  }

  /** Whether the goal changes p, which otherwise keeps the file it has. */
  predicate Writes(dst: Files, p: Path, g: Goal) {
    !(g.mode.Merge? && p in dst) && !Skips(g.mode, dst, p, g.content)
  }

  function Chosen(dst: Files, p: Path, g: Goal): Content {
    if Writes(dst, p, g) then g.content else dst[p]
  }

  /** The source laid over the destination, but for what a merge finds and a copy skips. */
  function Result(dst: Files, target: Goals): Files {
    dst + map p | p in target :: Chosen(dst, p, target[p])
  }

  function JobGoals(job: Job): Goals {
    TaskGoals(job.mode, job.tree, job.path)
  }

  function Target(jobs: seq<Job>): Goals {
    if jobs == [] then map[] else Target(jobs[..|jobs| - 1]) + JobGoals(jobs[|jobs| - 1])
  }

  /** No two transfers have a file in common. */
  predicate JobsOk(jobs: seq<Job>) {
    && (forall i :: 0 <= i < |jobs| ==> jobs[i].path != [] && TreeOk(jobs[i].tree))
    && (forall i, j :: 0 <= i < j < |jobs| ==> JobGoals(jobs[i]).Keys !! JobGoals(jobs[j]).Keys)
  }

  /*** where files are ***/

  /** Files of a directory are below it, under one of its names. */
  lemma {:induction false} EntryGoalsBelow(mode: Mode, es: Entries, path: Path, p: Path)
    requires p in EntryGoals(mode, es, path)
    ensures |p| > |path| && path <= p && p[|path|] in Names(es)
    decreases es
  {
    if p in TreeGoals(mode, es.tree, path + [es.name]) {
      TreeGoalsBelow(mode, es.tree, path + [es.name], p);
      assert p[..|path| + 1] == path + [es.name];
      assert p[..|path|] == p[..|path| + 1][..|path|] == path;
    } else {
      EntryGoalsBelow(mode, es.rest, path, p);
    }
  }

  lemma {:induction false} TreeGoalsBelow(mode: Mode, t: Tree, path: Path, p: Path)
    requires p in TreeGoals(mode, t, path)
    ensures path <= p
    decreases t
  {
    if t.Dir? {
      EntryGoalsBelow(mode, t.entries, path, p);
    }
  }

  /** The first entry's files are none of the others'. */
  lemma FirstApart(mode: Mode, es: Entries, path: Path)
    requires es.Cons? && EntriesOk(es)
    ensures TreeGoals(mode, es.tree, path + [es.name]).Keys !! EntryGoals(mode, es.rest, path).Keys
  {
    forall p | p in TreeGoals(mode, es.tree, path + [es.name]) ensures |p| > |path| && p[|path|] == es.name {
      TreeGoalsBelow(mode, es.tree, path + [es.name], p);
      assert p[..|path| + 1] == path + [es.name];
    }
    forall p | p in EntryGoals(mode, es.rest, path) ensures |p| > |path| && p[|path|] in Names(es.rest) {
      EntryGoalsBelow(mode, es.rest, path, p);
    }
  }

  lemma AsideApart(p: Path, q: Path)
    requires p != [] && q != [] && Aside(p) == Aside(q)
    ensures p == q
  {
    assert |p| == |q|;
    var (a, b) := (p[|p| - 1], q[|q| - 1]);
    assert Aside(p)[|p| - 1] == a + SUFFIX && Aside(q)[|q| - 1] == b + SUFFIX;
    assert |a| == |b|;
    assert a == (a + SUFFIX)[..|a|] && b == (b + SUFFIX)[..|b|];
    assert p == Aside(p)[..|p| - 1] + [a];
    assert q == Aside(q)[..|q| - 1] + [b];
  }

  /*** one path ***/

  /** Where the transfers start from, and what they are to do. */
  datatype Plan = Plan(apart: bool, was: Files, target: Goals)

  predicate SameAt(a: Files, b: Files, p: Path) {
    (p in a <==> p in b) && (p in a ==> a[p] == b[p])
  }

  predicate IsOld(c: Plan, dst: Files, p: Path) {
    SameAt(dst, c.was, p)
  }

  predicate IsNew(c: Plan, dst: Files, p: Path) {
    SameAt(dst, Result(c.was, c.target), p)
  }

  /** The file at p is given another name while its successor is uploaded. */
  predicate MovedAt(c: Plan, p: Path) {
    c.apart && p in c.target && p in c.was && c.was[p] != [] && Writes(c.was, p, c.target[p])
  }

  /** The names that old files are given are nobody else's. */
  predicate NoClash(c: Plan) {
    forall p :: p in c.target && MovedAt(c, p) ==> Aside(p) !in c.target && Aside(p) !in c.was
  }

  /** The name the file at p may be given is not in use, unless it was from the start. */
  predicate AsideFree(c: Plan, dst: Files, p: Path) {
    MovedAt(c, p) && Aside(p) !in c.was ==> Aside(p) !in dst
  }

  predicate AsideHolds(c: Plan, dst: Files, p: Path) {
    Aside(p) in dst && p in c.was && dst[Aside(p)] == c.was[p]
  }

  /** p was empty and is removed, or is as it was. */
  predicate OldButEmpty(c: Plan, dst: Files, p: Path) {
    if p in c.was && c.was[p] == [] then p !in dst else IsOld(c, dst, p)
  }

  /** The files a task will still see to. */
  function Todo(t: Task): Goals {
    match t
    case Asked(job) => JobGoals(job)
    case Queued(mode, path, tree) => TaskGoals(mode, tree, path)
    case Listing(mode, path, left, _) => EntryGoals(mode, left, path)
    case Uploading(path, content, _) => map[path := Goal(Copy(false), content)]
    case Tidying(path, content, _) => map[path := Goal(Copy(false), content)]
    case Closed => map[]
  }

  /** p while task t has yet to see to it, or is at it. */
  predicate HeldOk(c: Plan, dst: Files, failed: set<Path>, clean: bool, t: Task, p: Path) {
    match t
    case Uploading(_, _, moved) =>
      && (moved <==> MovedAt(c, p)) && p !in failed
      && if moved then p !in dst && AsideHolds(c, dst, p) else AsideFree(c, dst, p) && OldButEmpty(c, dst, p)
    case Tidying(_, content, sent) =>
      && MovedAt(c, p) && AsideHolds(c, dst, p)
      && if sent then p !in failed && p in dst && dst[p] == content else p in failed && (clean ==> p !in dst)
    case _ => p !in failed && IsOld(c, dst, p) && AsideFree(c, dst, p)
  }

  /** p when no task has to see to it any more; `ok` if nothing failed, `clean` if what
      failed left no traces. */
  predicate OverOk(c: Plan, dst: Files, failed: set<Path>, ok: bool, clean: bool, p: Path) {
    if p !in failed then
      AsideFree(c, dst, p) && (IsOld(c, dst, p) || IsNew(c, dst, p)) && (ok ==> IsNew(c, dst, p))
    else
      && !ok
      && (AsideFree(c, dst, p) || AsideHolds(c, dst, p))
      && (MovedAt(c, p) ==> IsOld(c, dst, p) || IsNew(c, dst, p) || AsideHolds(c, dst, p))
      && (clean ==> AsideFree(c, dst, p) && OldButEmpty(c, dst, p))
  }

  /*** what every run keeps ***/

  /** The goal h of a task stands for g. */
  predicate Fits(c: Plan, p: Path, g: Goal, h: Goal) {
    h == g || (h == Goal(Copy(false), g.content) && Writes(c.was, p, g))
  }

  predicate TaskOk(c: Plan, t: Task) {
    && (forall p :: p in Todo(t) ==> p in c.target && Fits(c, p, c.target[p], Todo(t)[p]))
    && match t
       case Asked(job) => job.path != [] && TreeOk(job.tree)
       case Queued(_, path, tree) => path != [] && TreeOk(tree)
       case Listing(mode, path, left, existing) =>
         EntriesOk(left) && (mode.Merge? ==> Known(c.was, path, left, existing))
       case _ => true
  }

  /** A merge knows which of the files left in a listed directory were there before. */
  predicate Known(was: Files, path: Path, es: Entries, existing: set<string>) {
    es.Cons? ==>
      && (es.tree.File? ==> (es.name in existing <==> path + [es.name] in was))
      && Known(was, path, es.rest, existing)
  }

  predicate TodoAt(s: State, i: nat, p: Path) {
    i < |s.tasks| && p in Todo(s.tasks[i])
  }

  ghost predicate Held(s: State, p: Path) {
    exists i: nat :: TodoAt(s, i, p)
  }

  predicate IsAside(c: Plan, p: Path) {
    exists q :: q in c.target && MovedAt(c, q) && p == Aside(q)
  }

  /** Each file of the source is seen to by one task at most, and is as that task and the
      failures so far say; no other file changes, but for the names old files are given. */
  ghost predicate Inv(c: Plan, s: State, ok: bool, clean: bool) {
    && [] !in c.target
    && (forall i :: 0 <= i < |s.tasks| ==> TaskOk(c, s.tasks[i]))
    && (forall i: nat, j: nat, p :: TodoAt(s, i, p) && TodoAt(s, j, p) ==> i == j)
    && (forall i: nat, p :: TodoAt(s, i, p) ==> HeldOk(c, s.dst, s.failed, clean, s.tasks[i], p))
    && (forall p :: p in c.target && !Held(s, p) ==> OverOk(c, s.dst, s.failed, ok, clean, p))
    && (forall p :: p in s.failed ==> !ok && p in c.target && Writes(c.was, p, c.target[p]))
    && (forall p :: p !in c.target && !IsAside(c, p) ==> IsOld(c, s.dst, p))
  }

  /*** steps that leave the destination alone ***/

  /** A task that has not begun to upload. */
  predicate Untouched(t: Task) {
    !t.Uploading? && !t.Tidying?
  }

  /** Task i keeps some of its files, hands some to a new task, and is through with others,
      of which a step that succeeds leaves only those that are not to be written. */
  ghost predicate Splits(c: Plan, s: State, s': State, i: nat, ok: bool) {
    && i < |s.tasks| <= |s'.tasks| <= |s.tasks| + 1 && s'.dst == s.dst && s'.failed == s.failed
    && (forall k :: 0 <= k < |s.tasks| && k != i ==> s'.tasks[k] == s.tasks[k])
    && Untouched(s.tasks[i]) && Untouched(s'.tasks[i]) && TaskOk(c, s'.tasks[i])
    && Todo(s'.tasks[i]).Keys <= Todo(s.tasks[i]).Keys
    && (|s'.tasks| > |s.tasks| ==>
          var n := s'.tasks[|s.tasks|];
          Untouched(n) && TaskOk(c, n)
          && Todo(n).Keys <= Todo(s.tasks[i]).Keys && Todo(n).Keys !! Todo(s'.tasks[i]).Keys)
    && (forall p :: ok && TodoAt(s, i, p) && !TodoAt(s', i, p) && !TodoAt(s', |s.tasks|, p) ==>
          p in c.target && !Writes(c.was, p, c.target[p]))
  }

  /** Whose it was. */
  function Before(s: State, i: nat, j: nat): nat {
    if j == |s.tasks| then i else j
  }

  lemma SplitHeld(c: Plan, s: State, s': State, i: nat, ok: bool, j: nat, p: Path)
    requires Splits(c, s, s', i, ok) && TodoAt(s', j, p)
    ensures TodoAt(s, Before(s, i, j), p)
  {
  }

  lemma SplitKept(c: Plan, s: State, s': State, i: nat, ok: bool, p: Path)
    requires Splits(c, s, s', i, ok) && Held(s, p) && !Held(s', p)
    ensures TodoAt(s, i, p) && !TodoAt(s', i, p) && !TodoAt(s', |s.tasks|, p)
  {
    var j: nat :| TodoAt(s, j, p);
    assert j != i ==> TodoAt(s', j, p);
  }

  lemma NotWritten(c: Plan, dst: Files, p: Path)
    requires IsOld(c, dst, p) && p in c.target && !Writes(c.was, p, c.target[p])
    ensures IsNew(c, dst, p)
  {
  }

  lemma SplitOver(c: Plan, s: State, s': State, i: nat, step: bool, ok: bool, clean: bool, p: Path)
    requires Inv(c, s, ok, clean) && Splits(c, s, s', i, step) && p in c.target && !Held(s', p)
    ensures OverOk(c, s'.dst, s'.failed, ok && step, clean, p)
  {
    if Held(s, p) {
      SplitKept(c, s, s', i, step, p);
      assert HeldOk(c, s.dst, s.failed, clean, s.tasks[i], p);
      if step {
        NotWritten(c, s.dst, p);
      }
    }
  }

  lemma SplitTasks(c: Plan, s: State, s': State, i: nat, step: bool, ok: bool, clean: bool)
    requires Inv(c, s, ok, clean) && Splits(c, s, s', i, step)
    ensures forall j :: 0 <= j < |s'.tasks| ==> TaskOk(c, s'.tasks[j])
    ensures forall j: nat, p :: TodoAt(s', j, p) ==> HeldOk(c, s'.dst, s'.failed, clean, s'.tasks[j], p)
  {
    forall j: nat, p | TodoAt(s', j, p) ensures HeldOk(c, s'.dst, s'.failed, clean, s'.tasks[j], p) {
      SplitHeld(c, s, s', i, step, j, p);
    }
  }

  lemma SplitUnique(c: Plan, s: State, s': State, i: nat, step: bool, j: nat, k: nat, p: Path)
    requires Splits(c, s, s', i, step) && TodoAt(s', j, p) && TodoAt(s', k, p)
    requires forall j: nat, k: nat :: TodoAt(s, j, p) && TodoAt(s, k, p) ==> j == k
    ensures j == k
  {
    SplitHeld(c, s, s', i, step, j, p);
    SplitHeld(c, s, s', i, step, k, p);
  }

  lemma SplitKeeps(c: Plan, s: State, s': State, i: nat, step: bool, ok: bool, clean: bool)
    requires Inv(c, s, ok, clean) && Splits(c, s, s', i, step)
    ensures Inv(c, s', ok && step, clean)
  {
    SplitTasks(c, s, s', i, step, ok, clean);
    forall j: nat, k: nat, p | TodoAt(s', j, p) && TodoAt(s', k, p) ensures j == k {
      SplitUnique(c, s, s', i, step, j, k, p);
    }
    forall p | p in c.target && !Held(s', p) ensures OverOk(c, s'.dst, s'.failed, ok && step, clean, p) {
      SplitOver(c, s, s', i, step, ok, clean, p);
    }
  }

  /*** steps of an upload ***/

  /** Only the file at p, and the name it may be given, change. */
  ghost predicate OnlyAt(c: Plan, dst: Files, dst': Files, p: Path) {
    forall q {:trigger SameAt(dst', dst, q)} :: q != p && !(MovedAt(c, p) && q == Aside(p)) ==> SameAt(dst', dst, q)
  }

  /** What happens at p does not matter elsewhere. */
  lemma Elsewhere(c: Plan, dst: Files, dst': Files, p: Path, q: Path)
    requires NoClash(c) && [] !in c.target && OnlyAt(c, dst, dst', p) && p in c.target && q in c.target && q != p
    ensures SameAt(dst', dst, q) && (MovedAt(c, q) ==> SameAt(dst', dst, Aside(q)))
  {
    assert SameAt(dst', dst, q);
    if MovedAt(c, q) {
      if MovedAt(c, p) && Aside(p) == Aside(q) {
        AsideApart(p, q);
        assert false;
      }
      assert SameAt(dst', dst, Aside(q));
    }
  }

  ghost predicate OnlyHere(c: Plan, s: State, s': State, p: Path) {
    && NoClash(c) && [] !in c.target && p in c.target && OnlyAt(c, s.dst, s'.dst, p)
    && (s'.failed == s.failed || s'.failed == s.failed + {p})
  }

  lemma HeldElsewhere(c: Plan, s: State, s': State, p: Path, q: Path, t: Task, clean: bool, clean': bool)
    requires OnlyHere(c, s, s', p) && q in c.target && q != p && (clean' ==> clean)
    requires HeldOk(c, s.dst, s.failed, clean, t, q)
    ensures HeldOk(c, s'.dst, s'.failed, clean', t, q)
  {
    Elsewhere(c, s.dst, s'.dst, p, q);
  }

  lemma OverElsewhere(c: Plan, s: State, s': State, p: Path, q: Path, ok: bool, clean: bool, ok': bool, clean': bool)
    requires OnlyHere(c, s, s', p) && q in c.target && q != p && (clean' ==> clean) && (ok' ==> ok)
    requires OverOk(c, s.dst, s.failed, ok, clean, q)
    ensures OverOk(c, s'.dst, s'.failed, ok', clean', q)
  {
    Elsewhere(c, s.dst, s'.dst, p, q);
  }

  /** The step of an upload at p leaves what it should. */
  ghost predicate Leaves(c: Plan, s: State, s': State, i: nat, p: Path, ok: bool, clean: bool) {
    && |s'.tasks| == |s.tasks| && (forall k :: 0 <= k < |s.tasks| && k != i ==> s'.tasks[k] == s.tasks[k])
    && i < |s.tasks| && TaskOk(c, s'.tasks[i]) && Todo(s'.tasks[i]).Keys <= {p}
    && OnlyAt(c, s.dst, s'.dst, p) && (s'.failed == s.failed || s'.failed == s.failed + {p})
    && (p in s'.failed ==> !ok && p in c.target && Writes(c.was, p, c.target[p]))
    && if p in Todo(s'.tasks[i]) then HeldOk(c, s'.dst, s'.failed, clean, s'.tasks[i], p)
       else OverOk(c, s'.dst, s'.failed, ok, clean, p)
  }

  lemma UploadHeld(c: Plan, s: State, s': State, i: nat, p: Path, ok: bool, clean: bool, ok': bool, clean': bool)
    requires NoClash(c) && Inv(c, s, ok, clean) && (clean' ==> clean) && TodoAt(s, i, p)
      && Leaves(c, s, s', i, p, ok', clean')
    ensures forall j: nat, q :: TodoAt(s', j, q) ==>
      TodoAt(s, j, q) && HeldOk(c, s'.dst, s'.failed, clean', s'.tasks[j], q)
  {
    forall j: nat, q | TodoAt(s', j, q)
      ensures TodoAt(s, j, q) && HeldOk(c, s'.dst, s'.failed, clean', s'.tasks[j], q)
    {
      if j != i {
        assert s'.tasks[j] == s.tasks[j] && TodoAt(s, j, q);
        HeldElsewhere(c, s, s', p, q, s.tasks[j], clean, clean');
      }
    }
  }

  lemma UploadOver(c: Plan, s: State, s': State, i: nat, p: Path, ok: bool, clean: bool, ok': bool, clean': bool,
                   q: Path)
    requires NoClash(c) && Inv(c, s, ok, clean) && (ok' ==> ok) && (clean' ==> clean)
    requires TodoAt(s, i, p) && Todo(s.tasks[i]).Keys == {p} && Leaves(c, s, s', i, p, ok', clean')
    requires q in c.target && !Held(s', q)
    ensures OverOk(c, s'.dst, s'.failed, ok', clean', q)
  {
    if q != p {
      forall j: nat ensures !TodoAt(s, j, q) {
        assert !TodoAt(s', j, q);
      }
      OverElsewhere(c, s, s', p, q, ok, clean, ok', clean');
    } else {
      assert !TodoAt(s', i, q);
    }
  }

  lemma UploadKeeps(c: Plan, s: State, s': State, i: nat, p: Path, ok: bool, clean: bool, ok': bool, clean': bool)
    requires NoClash(c) && Inv(c, s, ok, clean) && (ok' ==> ok) && (clean' ==> clean)
    requires TodoAt(s, i, p) && Todo(s.tasks[i]).Keys == {p} && Leaves(c, s, s', i, p, ok', clean')
    ensures Inv(c, s', ok', clean')
  {
    UploadHeld(c, s, s', i, p, ok, clean, ok', clean');
    forall q | q in c.target && !Held(s', q) ensures OverOk(c, s'.dst, s'.failed, ok', clean', q) {
      UploadOver(c, s, s', i, p, ok, clean, ok', clean', q);
    }
    forall q | q !in c.target && !IsAside(c, q) ensures IsOld(c, s'.dst, q) {
      assert SameAt(s'.dst, s.dst, q);
    }
  }

  /*** the steps, one by one ***/

  lemma {:induction false} ListingKnows(was: Files, dst: Files, mode: Mode, path: Path, es: Entries,
                                        existing: set<string>)
    requires existing == set p | p in dst && |p| == |path| + 1 && path <= p :: p[|path|]
    requires forall p :: p in EntryGoals(mode, es, path) ==> SameAt(dst, was, p)
    requires EntriesOk(es)
    ensures Known(was, path, es, existing)
    decreases es
  {
    if es.Cons? {
      FirstApart(mode, es, path);
      ListingKnows(was, dst, mode, path, es.rest, existing);
      if es.tree.File? {
        var p := path + [es.name];
        assert p in EntryGoals(mode, es, path) && SameAt(dst, was, p);
        assert p[..|path|] == path && p[|path|] == es.name;
        if es.name in existing {
          var q :| q in dst && |q| == |path| + 1 && path <= q && q[|path|] == es.name;
          assert q == p;
        }
      }
    }
  }

  lemma StartKeeps(c: Plan, s: State, i: nat, ok: bool, clean: bool)
    requires Inv(c, s, ok, clean) && i < |s.tasks| && s.tasks[i].Asked?
    ensures Inv(c, StartTask(s, i), ok, clean)
  {
    SplitKeeps(c, s, StartTask(s, i), i, true, ok, clean);
  }

  lemma BeginSplits(c: Plan, s: State, i: nat)
    requires i < |s.tasks| && s.tasks[i].Queued? && s.tasks[i].tree.Dir? && TaskOk(c, s.tasks[i])
    requires forall p :: p in Todo(s.tasks[i]) ==> IsOld(c, s.dst, p)
    ensures Splits(c, s, BeginTask(s, i), i, true)
  {
    var t := s.tasks[i];
    if t.mode.Merge? {
      ListingKnows(c.was, s.dst, t.mode, t.path, t.tree.entries, BeginTask(s, i).tasks[i].existing);
    }
  }

  lemma BeginKeeps(c: Plan, s: State, i: nat, ok: bool, clean: bool)
    requires Inv(c, s, ok, clean) && i < |s.tasks| && s.tasks[i].Queued? && s.tasks[i].tree.Dir?
    ensures Inv(c, BeginTask(s, i), ok, clean)
  {
    forall p | p in Todo(s.tasks[i]) ensures IsOld(c, s.dst, p) {
      assert TodoAt(s, i, p);
    }
    BeginSplits(c, s, i);
    SplitKeeps(c, s, BeginTask(s, i), i, true, ok, clean);
  }

  /** The task of the first entry has what the directory's task had for it. */
  lemma EntryTaskOk(c: Plan, t: Task)
    requires t.Listing? && t.left.Cons? && TaskOk(c, t)
    requires t.left.tree.File? && t.mode.Merge? ==> t.left.name !in t.existing
    ensures TaskOk(c, Queued(t.mode, t.path + [t.left.name], t.left.tree))
    ensures Todo(Queued(t.mode, t.path + [t.left.name], t.left.tree)).Keys <= Todo(t).Keys
  {
    var es, p := t.left, t.path + [t.left.name];
    assert Todo(t) == EntryGoals(t.mode, es.rest, t.path) + TreeGoals(t.mode, es.tree, p);
    forall q | q in TreeGoals(t.mode, es.tree, p)
      ensures q in Todo(t) && Todo(t)[q] == TreeGoals(t.mode, es.tree, p)[q] && Fits(c, q, c.target[q], Todo(t)[q])
    {
    }
  }

  lemma RestTaskOk(c: Plan, t: Task)
    requires t.Listing? && t.left.Cons? && TaskOk(c, t)
    ensures TaskOk(c, t.(left := t.left.rest))
    ensures Todo(t.(left := t.left.rest)).Keys !! TreeGoals(t.mode, t.left.tree, t.path + [t.left.name]).Keys
    ensures Todo(t).Keys == Todo(t.(left := t.left.rest)).Keys
      + TreeGoals(t.mode, t.left.tree, t.path + [t.left.name]).Keys
  {
    var es := t.left;
    FirstApart(t.mode, es, t.path);
    forall q | q in EntryGoals(t.mode, es.rest, t.path)
      ensures q in Todo(t) && Todo(t)[q] == EntryGoals(t.mode, es.rest, t.path)[q]
    {
    }
  }

  lemma RegisterSplits(c: Plan, s: State, i: nat)
    requires i < |s.tasks| && s.tasks[i].Listing? && s.tasks[i].left.Cons? && TaskOk(c, s.tasks[i])
    ensures Splits(c, s, RegisterTask(s, i), i, true)
  {
    var t, s' := s.tasks[i], RegisterTask(s, i);
    var es, p := t.left, t.path + [t.left.name];
    RestTaskOk(c, t);
    if |s'.tasks| > |s.tasks| {
      EntryTaskOk(c, t);
    } else {
      assert Todo(t) == EntryGoals(t.mode, es.rest, t.path) + TreeGoals(t.mode, es.tree, p);
      assert p in Todo(t) && Todo(t)[p] == Goal(t.mode, es.tree.content);
      assert p in c.target && Fits(c, p, c.target[p], Todo(t)[p]) && p in c.was;
    }
  }

  lemma RegisterKeeps(c: Plan, s: State, i: nat, ok: bool, clean: bool)
    requires Inv(c, s, ok, clean) && i < |s.tasks| && s.tasks[i].Listing? && s.tasks[i].left.Cons?
    ensures Inv(c, RegisterTask(s, i), ok, clean)
  {
    RegisterSplits(c, s, i);
    SplitKeeps(c, s, RegisterTask(s, i), i, true, ok, clean);
  }

  lemma EndKeeps(c: Plan, s: State, i: nat, step: bool, ok: bool, clean: bool)
    requires Inv(c, s, ok, clean) && i < |s.tasks|
    requires if step then Through(s, s.tasks[i]) else s.tasks[i].Queued? || s.tasks[i].Listing?
    ensures Inv(c, Close(s, i, step), ok && step, clean)
  {
    var t := s.tasks[i];
    if step && t.Queued? {
      assert TodoAt(s, i, t.path);
      assert Fits(c, t.path, c.target[t.path], Todo(t)[t.path]);
    }
    SplitKeeps(c, s, Close(s, i, step), i, step, ok, clean);
  }

  /** What the invariant says of the file that task i is about. */
  predicate AtIt(c: Plan, s: State, i: nat, p: Path, clean: bool) {
    && PathApart(c, p) && TodoAt(s, i, p) && Todo(s.tasks[i]).Keys == {p}
    && p in c.target && Fits(c, p, c.target[p], Todo(s.tasks[i])[p])
    && HeldOk(c, s.dst, s.failed, clean, s.tasks[i], p)
  }

  predicate PathApart(c: Plan, p: Path) {
    Aside(p) != p && (MovedAt(c, p) ==> Aside(p) !in c.target && Aside(p) !in c.was)
  }

  lemma IsAtIt(c: Plan, s: State, i: nat, p: Path, ok: bool, clean: bool)
    requires NoClash(c) && Inv(c, s, ok, clean) && TodoAt(s, i, p) && Todo(s.tasks[i]).Keys == {p}
    ensures AtIt(c, s, i, p, clean)
  {
    assert p != [];
    AsideOther(p);
  }

  lemma AsideOther(p: Path)
    requires p != []
    ensures Aside(p) != p
  {
    assert |Aside(p)[|p| - 1]| > |p[|p| - 1]|;
  }

  lemma PrepareLeaves(c: Plan, s: State, i: nat, p: Path, ok: bool, clean: bool)
    requires AtIt(c, s, i, p, clean) && s.tasks[i].Queued? && s.tasks[i].tree.File? && s.tasks[i].path == p
    requires !Skips(s.tasks[i].mode, s.dst, p, s.tasks[i].tree.content)
    ensures Leaves(c, s, PrepareUpload(c.apart, s, i), i, p, ok, clean)
  {
    assert Writes(c.was, p, c.target[p]);
  }

  lemma PrepareKeeps(c: Plan, s: State, i: nat, ok: bool, clean: bool)
    requires NoClash(c) && Inv(c, s, ok, clean) && i < |s.tasks| && s.tasks[i].Queued? && s.tasks[i].tree.File?
    requires !Skips(s.tasks[i].mode, s.dst, s.tasks[i].path, s.tasks[i].tree.content)
    ensures Inv(c, PrepareUpload(c.apart, s, i), ok, clean)
  {
    var p := s.tasks[i].path;
    IsAtIt(c, s, i, p, ok, clean);
    PrepareLeaves(c, s, i, p, ok, clean);
    UploadKeeps(c, s, PrepareUpload(c.apart, s, i), i, p, ok, clean, ok, clean);
  }

  lemma SendLeaves(c: Plan, s: State, i: nat, p: Path, ok: bool, clean: bool)
    requires AtIt(c, s, i, p, clean) && s.tasks[i].Uploading? && s.tasks[i].path == p
    ensures Leaves(c, s, SendUpload(s, i), i, p, ok, clean)
  {
    assert Writes(c.was, p, c.target[p]) && s.tasks[i].content == c.target[p].content;
  }

  lemma SendKeeps(c: Plan, s: State, i: nat, ok: bool, clean: bool)
    requires NoClash(c) && Inv(c, s, ok, clean) && i < |s.tasks| && s.tasks[i].Uploading?
    ensures Inv(c, SendUpload(s, i), ok, clean)
  {
    var p := s.tasks[i].path;
    IsAtIt(c, s, i, p, ok, clean);
    SendLeaves(c, s, i, p, ok, clean);
    UploadKeeps(c, s, SendUpload(s, i), i, p, ok, clean, ok, clean);
  }

  function Lookup(dst: Files, p: Path): Option<Content> {
    if p in dst then Some(dst[p]) else None
  }

  lemma BreakLeaves(c: Plan, s: State, i: nat, p: Path, left: Option<Content>, clean: bool)
    requires AtIt(c, s, i, p, clean) && s.tasks[i].Uploading? && s.tasks[i].path == p
    ensures Leaves(c, s, BreakUpload(s, i, left), i, p, false, clean && left == Lookup(s.dst, p))
  {
    assert Writes(c.was, p, c.target[p]);
  }

  lemma BreakKeeps(c: Plan, s: State, i: nat, left: Option<Content>, ok: bool, clean: bool)
    requires NoClash(c) && Inv(c, s, ok, clean) && i < |s.tasks| && s.tasks[i].Uploading?
    ensures Inv(c, BreakUpload(s, i, left), false, clean && left == Lookup(s.dst, s.tasks[i].path))
  {
    var p := s.tasks[i].path;
    IsAtIt(c, s, i, p, ok, clean);
    BreakLeaves(c, s, i, p, left, clean);
    UploadKeeps(c, s, BreakUpload(s, i, left), i, p, ok, clean, false, clean && left == Lookup(s.dst, p));
  }

  lemma TidyLeaves(c: Plan, s: State, i: nat, p: Path, done: bool, ok: bool, clean: bool)
    requires AtIt(c, s, i, p, clean) && s.tasks[i].Tidying? && s.tasks[i].path == p
    ensures Leaves(c, s, TidyUpload(s, i, done), i, p, ok && done && s.tasks[i].sent, clean && done)
  {
    assert Writes(c.was, p, c.target[p]) && s.tasks[i].content == c.target[p].content;
  }

  lemma TidyKeeps(c: Plan, s: State, i: nat, done: bool, ok: bool, clean: bool)
    requires NoClash(c) && Inv(c, s, ok, clean) && i < |s.tasks| && s.tasks[i].Tidying?
    ensures Inv(c, TidyUpload(s, i, done), ok && done, clean && done)
  {
    var p := s.tasks[i].path;
    IsAtIt(c, s, i, p, ok, clean);
    TidyLeaves(c, s, i, p, done, ok, clean);
    assert ok ==> s.tasks[i].sent;
    UploadKeeps(c, s, TidyUpload(s, i, done), i, p, ok, clean, ok && done, clean && done);
  }

  /*** runs ***/

  /** The event is no failure of a task. */
  predicate Fine(e: Event) {
    match e
    case Break(_, _) => false
    case Tidy(_, done) => done
    case End(_, ok) => ok
    case _ => true
  }

  predicate NoFailure(es: seq<Event>) {
    forall k :: 0 <= k < |es| ==> Fine(es[k])
  }

  /** The storage leaves nothing behind in a failure: an upload that breaks leaves what is at
      its path, and files can be removed and renamed. */
  predicate CleanEvent(s: State, e: Event) {
    match e
    case Break(i, left) => i < |s.tasks| && s.tasks[i].Uploading? ==> left == Lookup(s.dst, s.tasks[i].path)
    case Tidy(_, done) => done
    case _ => true
  }

  predicate CleanFailures(apart: bool, start: State, es: seq<Event>) {
    es == [] ||
    (var before := es[..|es| - 1];
     CleanFailures(apart, start, before) &&
     (Run(apart, start, before).Some? ==> CleanEvent(Run(apart, start, before).value, es[|es| - 1])))
  }

  lemma StepKeeps(c: Plan, s: State, e: Event, ok: bool, clean: bool)
    requires NoClash(c) && Inv(c, s, ok, clean) && Next(c.apart, s, e).Some?
    ensures Inv(c, Next(c.apart, s, e).value, ok && Fine(e), clean && CleanEvent(s, e))
  {
    match e
    case Start(i) => StartKeeps(c, s, i, ok, clean);
    case Begin(i) => BeginKeeps(c, s, i, ok, clean);
    case Register(i) => RegisterKeeps(c, s, i, ok, clean);
    case Prepare(i) => PrepareKeeps(c, s, i, ok, clean);
    case Send(i) => SendKeeps(c, s, i, ok, clean);
    case Break(i, left) => BreakKeeps(c, s, i, left, ok, clean);
    case Tidy(i, done) =>
      TidyKeeps(c, s, i, done, ok, clean);
    case End(i, step) => EndKeeps(c, s, i, step, ok, clean);
  }

  /*** from the start ***/

  lemma {:induction false} TargetAt(jobs: seq<Job>, i: nat, p: Path)
    requires JobsOk(jobs) && i < |jobs| && p in JobGoals(jobs[i])
    ensures p in Target(jobs) && Target(jobs)[p] == JobGoals(jobs[i])[p]
    decreases |jobs|
  {
    if i < |jobs| - 1 {
      TargetAt(jobs[..|jobs| - 1], i, p);
      assert p !in JobGoals(jobs[|jobs| - 1]);
    }
  }

  lemma {:induction false} TargetFrom(jobs: seq<Job>, p: Path) returns (i: nat)
    requires JobsOk(jobs) && p in Target(jobs)
    ensures i < |jobs| && p in JobGoals(jobs[i]) && p != []
    decreases |jobs|
  {
    if p in JobGoals(jobs[|jobs| - 1]) {
      i := |jobs| - 1;
    } else {
      i := TargetFrom(jobs[..|jobs| - 1], p);
    }
    TreeGoalsBelow(TaskMode(jobs[i].mode, jobs[i].tree), jobs[i].tree, jobs[i].path, p);
  }

  function PlanFor(apart: bool, was: Files, jobs: seq<Job>): Plan {
    Plan(apart, was, Target(jobs))
  }

  lemma InitTask(c: Plan, jobs: seq<Job>, i: nat)
    requires JobsOk(jobs) && i < |jobs| && c.target == Target(jobs)
    ensures TaskOk(c, Asked(jobs[i]))
  {
    forall p | p in JobGoals(jobs[i]) ensures p in c.target && c.target[p] == JobGoals(jobs[i])[p] {
      TargetAt(jobs, i, p);
    }
  }

  lemma InitHeld(was: Files, jobs: seq<Job>, p: Path)
    requires JobsOk(jobs) && p in Target(jobs)
    ensures Held(Init(was, jobs), p) && p != []
  {
    var i := TargetFrom(jobs, p);
    assert TodoAt(Init(was, jobs), i, p);
  }

  lemma InitUnique(was: Files, jobs: seq<Job>, i: nat, j: nat, p: Path)
    requires JobsOk(jobs) && TodoAt(Init(was, jobs), i, p) && TodoAt(Init(was, jobs), j, p)
    ensures i == j
  {
    assert p in JobGoals(jobs[i]) && p in JobGoals(jobs[j]);
  }

  lemma InitKeeps(apart: bool, was: Files, jobs: seq<Job>)
    requires JobsOk(jobs)
    ensures Inv(PlanFor(apart, was, jobs), Init(was, jobs), true, true)
    ensures forall p :: p in Target(jobs) ==> Held(Init(was, jobs), p)
  {
    var s := Init(was, jobs);
    forall i | 0 <= i < |s.tasks| ensures TaskOk(PlanFor(apart, was, jobs), s.tasks[i]) {
      InitTask(PlanFor(apart, was, jobs), jobs, i);
    }
    forall p | p in Target(jobs) ensures Held(s, p) && p != [] {
      InitHeld(was, jobs, p);
    }
    forall i: nat, j: nat, p | TodoAt(s, i, p) && TodoAt(s, j, p) ensures i == j {
      InitUnique(was, jobs, i, j, p);
    }
  }

  lemma {:induction false} RunKeeps(apart: bool, was: Files, jobs: seq<Job>, es: seq<Event>)
    requires JobsOk(jobs) && NoClash(PlanFor(apart, was, jobs)) && Run(apart, Init(was, jobs), es).Some?
    ensures Inv(PlanFor(apart, was, jobs), Run(apart, Init(was, jobs), es).value,
                NoFailure(es), CleanFailures(apart, Init(was, jobs), es))
  {
    if es == [] {
      InitKeeps(apart, was, jobs);
    } else {
      var before, e := es[..|es| - 1], es[|es| - 1];
      RunKeeps(apart, was, jobs, before);
      StepKeeps(PlanFor(apart, was, jobs), Run(apart, Init(was, jobs), before).value, e,
                NoFailure(before), CleanFailures(apart, Init(was, jobs), before));
      NoFailureSnoc(es);
    }
  }

  lemma NoFailureSnoc(es: seq<Event>)
    requires es != []
    ensures NoFailure(es) <==> NoFailure(es[..|es| - 1]) && Fine(es[|es| - 1])
  {
  }

  /*** what the transfers leave ***/

  /** The upload to p is under way, or began and did not succeed. */
  ghost predicate Disturbed(s: State, p: Path) {
    p in s.failed || exists i: nat :: TodoAt(s, i, p) && !Untouched(s.tasks[i])
  }

  lemma PathSettled(c: Plan, s: State, p: Path, ok: bool, clean: bool)
    requires Inv(c, s, ok, clean) && p in c.target && !Disturbed(s, p)
    ensures IsOld(c, s.dst, p) || IsNew(c, s.dst, p)
  {
    if Held(s, p) {
      var i: nat :| TodoAt(s, i, p);
      assert HeldOk(c, s.dst, s.failed, clean, s.tasks[i], p);
    }
  }

  lemma AsideSettled(c: Plan, s: State, q: Path, ok: bool, clean: bool)
    requires NoClash(c) && Inv(c, s, ok, clean) && q in c.target && MovedAt(c, q)
    ensures Aside(q) !in s.dst || (Disturbed(s, q) && AsideHolds(c, s.dst, q))
  {
    if Held(s, q) {
      var i: nat :| TodoAt(s, i, q);
      assert HeldOk(c, s.dst, s.failed, clean, s.tasks[i], q);
    }
  }

  /** p is the name that the file of a disturbed upload has meanwhile, with its content. */
  ghost predicate SetAside(c: Plan, s: State, p: Path) {
    exists q :: q in c.target && MovedAt(c, q) && p == Aside(q) && Disturbed(s, q) && AsideHolds(c, s.dst, q)
  }

  lemma AllSettled(c: Plan, s: State, p: Path, ok: bool, clean: bool)
    requires NoClash(c) && Inv(c, s, ok, clean)
    ensures IsOld(c, s.dst, p) || IsNew(c, s.dst, p) || Disturbed(s, p) || SetAside(c, s, p)
  {
    if p in c.target {
      if !Disturbed(s, p) {
        PathSettled(c, s, p, ok, clean);
      }
    } else if q :| q in c.target && MovedAt(c, q) && p == Aside(q) {
      AsideSettled(c, s, q, ok, clean);
    }
  }

  lemma TargetNew(c: Plan, s: State, clean: bool, p: Path)
    requires Inv(c, s, true, clean) && p in c.target && !Held(s, p)
    ensures IsNew(c, s.dst, p) && AsideFree(c, s.dst, p)
  {
  }

  lemma NoTarget(c: Plan, dst: Files, p: Path)
    requires p !in c.target && IsOld(c, dst, p)
    ensures IsNew(c, dst, p)
  {
  }

  lemma AsideNew(c: Plan, s: State, clean: bool, q: Path)
    requires NoClash(c) && Inv(c, s, true, clean) && q in c.target && MovedAt(c, q) && !Held(s, q)
    ensures IsNew(c, s.dst, Aside(q))
  {
    TargetNew(c, s, clean, q);
    NoTarget(c, s.dst, Aside(q));
  }

  lemma AllNew(c: Plan, s: State, clean: bool, p: Path)
    requires NoClash(c) && Inv(c, s, true, clean) && forall q :: !Held(s, q)
    ensures IsNew(c, s.dst, p)
  {
    if p in c.target {
      TargetNew(c, s, clean, p);
    } else if q :| q in c.target && MovedAt(c, q) && p == Aside(q) {
      AsideNew(c, s, clean, q);
    } else {
      NoTarget(c, s.dst, p);
    }
  }

  /** Every task has ended. */
  predicate AllClosed(s: State) {
    forall i :: 0 <= i < |s.tasks| ==> s.tasks[i].Closed?
  }

  /** In whatever order the tasks of whatever transfers run, when all have ended and none
      failed the destination is the source laid over what was there; a merge leaves what it
      finds in a directory, and a copy may skip files of the same size. */
  lemma AnyOrderSameResult(apart: bool, was: Files, jobs: seq<Job>, es: seq<Event>)
    requires JobsOk(jobs) && NoClash(PlanFor(apart, was, jobs)) && NoFailure(es)
    requires Run(apart, Init(was, jobs), es).Some? && AllClosed(Run(apart, Init(was, jobs), es).value)
    ensures Run(apart, Init(was, jobs), es).value.dst == Result(was, Target(jobs))
  {
    var s := Run(apart, Init(was, jobs), es).value;
    RunKeeps(apart, was, jobs, es);
    assert forall p :: !Held(s, p);
    forall p ensures SameAt(s.dst, Result(was, Target(jobs)), p) {
      AllNew(PlanFor(apart, was, jobs), s, CleanFailures(apart, Init(was, jobs), es), p);
    }
    SameMaps(s.dst, Result(was, Target(jobs)));
  }

  lemma SameMaps(a: Files, b: Files)
    requires forall p :: SameAt(a, b, p)
    ensures a == b
  {
    assert forall p :: p in a ==> SameAt(a, b, p);
    assert forall p :: p in b ==> SameAt(a, b, p);
  }

  /** At any time, whatever failed: a file is as it was or as it is in the end, unless its own
      upload is under way or failed; and what appears beside them is the old content of such
      a file, under the name it is given meanwhile. */
  lemma EachFileOldOrNew(apart: bool, was: Files, jobs: seq<Job>, es: seq<Event>, p: Path)
    requires JobsOk(jobs) && NoClash(PlanFor(apart, was, jobs)) && Run(apart, Init(was, jobs), es).Some?
    ensures var c, s := PlanFor(apart, was, jobs), Run(apart, Init(was, jobs), es).value;
      IsOld(c, s.dst, p) || IsNew(c, s.dst, p) || Disturbed(s, p) || SetAside(c, s, p)
  {
    RunKeeps(apart, was, jobs, es);
    AllSettled(PlanFor(apart, was, jobs), Run(apart, Init(was, jobs), es).value, p,
               NoFailure(es), CleanFailures(apart, Init(was, jobs), es));
  }

  /** A storage that does not overwrite never loses a file that was not empty: whatever fails
      and whenever one looks, its content is there, under one name or the other, until the
      new one is. */
  lemma NothingLost(was: Files, jobs: seq<Job>, es: seq<Event>, p: Path)
    requires JobsOk(jobs) && NoClash(PlanFor(true, was, jobs)) && Run(true, Init(was, jobs), es).Some?
    requires p in was && was[p] != []
    ensures var c, s := PlanFor(true, was, jobs), Run(true, Init(was, jobs), es).value;
      IsOld(c, s.dst, p) || IsNew(c, s.dst, p) || AsideHolds(c, s.dst, p)
  {
    var c, s := PlanFor(true, was, jobs), Run(true, Init(was, jobs), es).value;
    RunKeeps(true, was, jobs, es);
    var ok, clean := NoFailure(es), CleanFailures(true, Init(was, jobs), es);
    if p in c.target {
      if Held(s, p) {
        var i: nat :| TodoAt(s, i, p);
        assert HeldOk(c, s.dst, s.failed, clean, s.tasks[i], p);
        assert Fits(c, p, c.target[p], Todo(s.tasks[i])[p]);
      } else {
        assert OverOk(c, s.dst, s.failed, ok, clean, p);
      }
    } else if q :| q in c.target && MovedAt(c, q) && p == Aside(q) {
      assert false;
    }
  }

  /** Where failures leave nothing behind, a failed upload keeps the file that was at its path
      exactly if that was not empty: an empty file is removed before the upload begins. */
  lemma FailedIsOldIff(apart: bool, was: Files, jobs: seq<Job>, es: seq<Event>, p: Path)
    requires JobsOk(jobs) && NoClash(PlanFor(apart, was, jobs)) && Run(apart, Init(was, jobs), es).Some?
    requires CleanFailures(apart, Init(was, jobs), es)
    requires p in Run(apart, Init(was, jobs), es).value.failed && !Held(Run(apart, Init(was, jobs), es).value, p)
    ensures IsOld(PlanFor(apart, was, jobs), Run(apart, Init(was, jobs), es).value.dst, p) <==>
      !(p in was && was[p] == [])
  {
    RunKeeps(apart, was, jobs, es);
  }

  /** A merge never changes a file that it finds in a directory, at any time. */
  lemma MergeKeepsExisting(apart: bool, was: Files, jobs: seq<Job>, es: seq<Event>, p: Path)
    requires JobsOk(jobs) && NoClash(PlanFor(apart, was, jobs)) && Run(apart, Init(was, jobs), es).Some?
    requires p in was && p in Target(jobs) && Target(jobs)[p].mode.Merge?
    ensures IsOld(PlanFor(apart, was, jobs), Run(apart, Init(was, jobs), es).value.dst, p)
  {
    var c, s := PlanFor(apart, was, jobs), Run(apart, Init(was, jobs), es).value;
    RunKeeps(apart, was, jobs, es);
    if Held(s, p) {
      var i: nat :| TodoAt(s, i, p);
      assert Fits(c, p, c.target[p], Todo(s.tasks[i])[p]);
      assert HeldOk(c, s.dst, s.failed, CleanFailures(apart, Init(was, jobs), es), s.tasks[i], p);
    }
  }
}

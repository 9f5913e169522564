/** Where transfers do not leave what they should: an empty file that is lost with a failed
    upload, and names that old files are given while somebody else has them. */
module TransferClash {
  import opened Wrappers
  import opened TaskGroup
  import opened Transfer
  import opened TransferResult

  /*** runs put together ***/

  /** es leads from s to s', and no task fails on the way. */
  ghost predicate Leads(apart: bool, s: State, es: seq<Event>, s': State) {
    Run(apart, s, es) == Some(s') && NoFailure(es)
  }

  lemma Stay(apart: bool, s: State)
    ensures Leads(apart, s, [], s)
  {
  }

  lemma OneStep(apart: bool, s: State, e: Event)
    requires Next(apart, s, e).Some? && Fine(e)
    ensures Leads(apart, s, [e], Next(apart, s, e).value)
  {
    assert [e][..0] == [];
  }

  /** A run goes on with one more event. */
  lemma RunOn(apart: bool, s: State, es: seq<Event>, e: Event)
    ensures Run(apart, s, es + [e]) ==
      var t := Run(apart, s, es); if t.None? then None else Next(apart, t.value, e)
  {
    assert (es + [e])[..|es + [e]| - 1] == es;
  }

  lemma {:induction false} RunThen(apart: bool, s: State, a: seq<Event>, b: seq<Event>)
    ensures Run(apart, s, a + b) == var t := Run(apart, s, a); if t.None? then None else Run(apart, t.value, b)
    decreases |b|
  {
    if b == [] {
      assert a + b == a;
    } else {
      var b0, e := b[..|b| - 1], b[|b| - 1];
      RunThen(apart, s, a, b0);
      assert b0 + [e] == b && (a + b0) + [e] == a + b;
      RunOn(apart, s, a + b0, e);
      var t := Run(apart, s, a);
      if t.Some? {
        RunOn(apart, t.value, b0, e);
      }
    }
  }

  lemma Then(apart: bool, s: State, a: seq<Event>, t: State, b: seq<Event>, u: State)
    requires Leads(apart, s, a, t) && Leads(apart, t, b, u)
    ensures Leads(apart, s, a + b, u)
  {
    RunThen(apart, s, a, b);
  }

  /*** an empty file, and a file left under another name ***/

  /** The upload of job 0 over an empty file: started, the empty file removed, broken off. */
  lemma OverEmpty(apart: bool, p: Path, content: Content, src: Path) returns (s1: State, s2: State)
    ensures var s := Init(map[p := []], [Job(Copy(false), p, File(content), src)]);
      Next(apart, s, Start(0)) == Some(s1) && Next(apart, s1, Prepare(0)) == Some(s2)
    ensures s2.dst == map[] && s2.tasks == [Uploading(p, content, false)]
  {
    s1 := StartTask(Init(map[p := []], [Job(Copy(false), p, File(content), src)]), 0);
    s2 := PrepareUpload(apart, s1, 0);
  }

  /** An upload over an empty file that fails leaves nothing, neither the old file nor the
      new one, however the storage behaves. */
  lemma EmptyFileLost(apart: bool, p: Path, content: Content, src: Path) returns (es: seq<Event>)
    requires p != [] && content != []
    ensures var was, jobs := map[p := []], [Job(Copy(false), p, File(content), src)];
      JobsOk(jobs) && NoClash(PlanFor(apart, was, jobs)) && CleanFailures(apart, Init(was, jobs), es)
      && Run(apart, Init(was, jobs), es).Some? && AllClosed(Run(apart, Init(was, jobs), es).value)
      && p !in Run(apart, Init(was, jobs), es).value.dst
      && p in was && p in Result(was, Target(jobs))
  {
    var was, jobs := map[p := []], [Job(Copy(false), p, File(content), src)];
    assert jobs[..0] == [];
    assert Target(jobs) == map[p := Goal(Copy(false), content)];
    var s := Init(was, jobs);
    var s1, s2 := OverEmpty(apart, p, content, src);
    es := [Start(0)] + [Prepare(0)] + [Break(0, None)];
    Onward(apart, s, [], s, Start(0), s1);
    assert [] + [Start(0)] == [Start(0)];
    Onward(apart, s, [Start(0)], s1, Prepare(0), s2);
    Onward(apart, s, [Start(0)] + [Prepare(0)], s2, Break(0, None), BreakUpload(s2, 0, None));
  }

  lemma Onward(apart: bool, s: State, es: seq<Event>, t: State, e: Event, u: State)
    requires Run(apart, s, es) == Some(t) && CleanFailures(apart, s, es) && Next(apart, t, e) == Some(u)
    requires CleanEvent(t, e)
    ensures Run(apart, s, es + [e]) == Some(u) && CleanFailures(apart, s, es + [e])
  {
    RunOn(apart, s, es, e);
    assert (es + [e])[..|es + [e]| - 1] == es;
  }

  /*** all tasks registered, nothing uploaded ***/

  /** The task has at most its own file left to see to. */
  predicate Ready(t: Task) {
    t.Closed? || (t.Queued? && t.tree.File?) || (t.Listing? && t.left.Nil?)
  }

  predicate Spread(s: State) {
    forall i :: 0 <= i < |s.tasks| ==> Ready(s.tasks[i])
  }

  function TreeWork(t: Tree): nat {
    match t case File(_) => 1 case Dir(entries) => 2 + EntriesWork(entries)
  }

  function EntriesWork(es: Entries): nat {
    if es.Nil? then 0 else 1 + TreeWork(es.tree) + EntriesWork(es.rest)
  }

  function TaskWork(t: Task): nat {
    match t
    case Asked(job) => 1 + TreeWork(job.tree)
    case Queued(_, _, tree) => TreeWork(tree)
    case Listing(_, _, left, _) => 1 + EntriesWork(left)
    case _ => 0
  }

  function Work(tasks: seq<Task>): nat {
    if tasks == [] then 0 else Work(tasks[..|tasks| - 1]) + TaskWork(tasks[|tasks| - 1])
  }

  lemma {:induction false} WorkSet(tasks: seq<Task>, i: nat, t: Task)
    requires i < |tasks|
    ensures Work(tasks[i := t]) + TaskWork(tasks[i]) == Work(tasks) + TaskWork(t)
    decreases |tasks|
  {
    var init := tasks[..|tasks| - 1];
    if i == |tasks| - 1 {
      assert tasks[i := t][..|tasks| - 1] == init;
    } else {
      assert tasks[i := t][..|tasks| - 1] == init[i := t];
      WorkSet(init, i, t);
    }
  }

  lemma WorkMore(tasks: seq<Task>, t: Task)
    ensures Work(tasks + [t]) == Work(tasks) + TaskWork(t)
  {
    assert (tasks + [t])[..|tasks|] == tasks;
  }

  /** A file that is to be written is still seen to by a task. */
  ghost predicate AllWritten(c: Plan, s: State) {
    forall p :: p in c.target && Writes(c.was, p, c.target[p]) ==> Held(s, p)
  }

  lemma WrittenKept(c: Plan, s: State, s': State, i: nat)
    requires AllWritten(c, s) && Splits(c, s, s', i, true)
    ensures AllWritten(c, s')
  {
    forall p | p in c.target && Writes(c.was, p, c.target[p]) ensures Held(s', p) {
      if !Held(s', p) {
        SplitKept(c, s, s', i, true, p);
        assert false;
      }
    }
  }

  /** Before anything is uploaded. */
  ghost predicate Early(c: Plan, s: State) {
    && Inv(c, s, true, true) && AllWritten(c, s) && s.dst == c.was
    && forall i :: 0 <= i < |s.tasks| ==> Untouched(s.tasks[i])
  }

  /** One event of task i, after which less is to be done. */
  ghost predicate Unfolds(c: Plan, s: State, e: Event, s': State) {
    Next(c.apart, s, e) == Some(s') && Fine(e) && Early(c, s') && Work(s'.tasks) < Work(s.tasks)
  }

  lemma UnfoldStart(c: Plan, s: State, i: nat)
    requires Early(c, s) && i < |s.tasks| && s.tasks[i].Asked?
    ensures Unfolds(c, s, Start(i), StartTask(s, i))
  {
    var s' := StartTask(s, i);
    StartKeeps(c, s, i, true, true);
    WrittenKept(c, s, s', i);
    WorkSet(s.tasks, i, s'.tasks[i]);
  }

  lemma UnfoldBegin(c: Plan, s: State, i: nat)
    requires Early(c, s) && i < |s.tasks| && s.tasks[i].Queued? && s.tasks[i].tree.Dir?
    ensures Unfolds(c, s, Begin(i), BeginTask(s, i))
  {
    var s' := BeginTask(s, i);
    BeginSplits(c, s, i);
    BeginKeeps(c, s, i, true, true);
    WrittenKept(c, s, s', i);
    WorkSet(s.tasks, i, s'.tasks[i]);
  }

  lemma UnfoldRegister(c: Plan, s: State, i: nat)
    requires Early(c, s) && i < |s.tasks| && s.tasks[i].Listing? && s.tasks[i].left.Cons?
    ensures Unfolds(c, s, Register(i), RegisterTask(s, i))
  {
    var t, s' := s.tasks[i], RegisterTask(s, i);
    var less := t.(left := t.left.rest);
    RegisterSplits(c, s, i);
    RegisterKeeps(c, s, i, true, true);
    WrittenKept(c, s, s', i);
    WorkSet(s.tasks, i, less);
    WorkMore(s.tasks[i := less], Queued(t.mode, t.path + [t.left.name], t.left.tree));
  }

  /** A task that is not ready can go on. */
  lemma Unfold(c: Plan, s: State, i: nat) returns (e: Event, s': State)
    requires Early(c, s) && i < |s.tasks| && !Ready(s.tasks[i])
    ensures Unfolds(c, s, e, s')
  {
    if s.tasks[i].Asked? {
      UnfoldStart(c, s, i);
      return Start(i), StartTask(s, i);
    } else if s.tasks[i].Queued? {
      UnfoldBegin(c, s, i);
      return Begin(i), BeginTask(s, i);
    } else {
      UnfoldRegister(c, s, i);
      return Register(i), RegisterTask(s, i);
    }
  }

  lemma {:induction false} SpreadOut(c: Plan, s: State) returns (es: seq<Event>, s': State)
    requires Early(c, s)
    ensures Leads(c.apart, s, es, s') && Early(c, s') && Spread(s')
    decreases Work(s.tasks)
  {
    if Spread(s) {
      Stay(c.apart, s);
      es, s' := [], s;
    } else {
      var i: nat :| i < |s.tasks| && !Ready(s.tasks[i]);
      var e, s1 := Unfold(c, s, i);
      OneStep(c.apart, s, e);
      es, s' := SpreadOut(c, s1);
      Then(c.apart, s, [e], s1, es, s');
      es := [e] + es;
    }
  }

  /*** tasks finished one by one ***/

  /** The only files that change are the task's own and the one put aside for it. */
  ghost predicate Finishes(apart: bool, s: State, s': State, i: nat) {
    && i < |s.tasks| && s'.tasks == s.tasks[i := Closed]
    && if s.tasks[i].Queued? && s.tasks[i].tree.File? then
         var (t, p) := (s.tasks[i], s.tasks[i].path);
         && (forall q {:trigger SameAt(s'.dst, s.dst, q)} :: q != p && q != Aside(p) ==> SameAt(s'.dst, s.dst, q))
         && (apart && p in s.dst && s.dst[p] != [] && !Skips(t.mode, s.dst, p, t.tree.content) ==> Aside(p) !in s'.dst)
       else s'.dst == s.dst
  }

  lemma FinishTask(apart: bool, s: State, i: nat) returns (es: seq<Event>, s': State)
    requires i < |s.tasks| && Ready(s.tasks[i]) && (s.tasks[i].Queued? ==> s.tasks[i].path != [])
    ensures Leads(apart, s, es, s') && Finishes(apart, s, s', i)
  {
    var t := s.tasks[i];
    if t.Closed? {
      Stay(apart, s);
      es, s' := [], s;
    } else if Through(s, t) {
      OneStep(apart, s, End(i, true));
      es, s' := [End(i, true)], Close(s, i, true);
    } else {
      es, s' := FinishUpload(apart, s, i);
    }
  }

  lemma FinishUpload(apart: bool, s: State, i: nat) returns (es: seq<Event>, s': State)
    requires i < |s.tasks| && s.tasks[i].Queued? && s.tasks[i].tree.File? && s.tasks[i].path != []
    requires !Skips(s.tasks[i].mode, s.dst, s.tasks[i].path, s.tasks[i].tree.content)
    ensures Leads(apart, s, es, s') && Finishes(apart, s, s', i)
  {
    AsideOther(s.tasks[i].path);
    var s1 := PrepareUpload(apart, s, i);
    OneStep(apart, s, Prepare(i));
    var s2 := SendUpload(s1, i);
    OneStep(apart, s1, Send(i));
    Then(apart, s, [Prepare(i)], s1, [Send(i)], s2);
    es, s' := [Prepare(i)] + [Send(i)], s2;
    if s1.tasks[i].moved {
      OneStep(apart, s2, Tidy(i, true));
      s' := TidyUpload(s2, i, true);
      Then(apart, s, es, s2, [Tidy(i, true)], s');
      es := es + [Tidy(i, true)];
    }
  }

  /** No task that is left has to do with x. */
  predicate Unconcerned(s: State, x: Path) {
    forall i :: 0 <= i < |s.tasks| && s.tasks[i].Queued? ==>
      s.tasks[i].path != [] && s.tasks[i].path != x && Aside(s.tasks[i].path) != x
  }

  lemma {:induction false} FinishAll(apart: bool, s: State, k: nat, x: Path) returns (es: seq<Event>, s': State)
    requires k <= |s.tasks| && Spread(s) && Unconcerned(s, x) && x !in s.dst
    requires forall i :: 0 <= i < k ==> s.tasks[i].Closed?
    ensures Leads(apart, s, es, s') && AllClosed(s') && x !in s'.dst
    decreases |s.tasks| - k
  {
    if k == |s.tasks| {
      Stay(apart, s);
      es, s' := [], s;
    } else {
      var s1;
      es, s1 := FinishTask(apart, s, k);
      assert x !in s1.dst by {
        assert s.tasks[k].Queued? ==> SameAt(s1.dst, s.dst, x);
      }
      var more;
      more, s' := FinishAll(apart, s1, k + 1, x);
      Then(apart, s, es, s1, more, s');
      es := es + more;
    }
  }

  /*** the clash ***/

  /** The file at p goes aside under a name that is a file's of its own, there or to come. */
  predicate ClashAt(c: Plan, p: Path) {
    p in c.target && MovedAt(c, p) && (Aside(p) in c.target || Aside(p) in c.was)
  }

  /** Whoever has x in such a state is a queued upload to x. */
  lemma Holder(c: Plan, s: State, x: Path) returns (i: nat)
    requires Early(c, s) && Spread(s) && Held(s, x)
    ensures TodoAt(s, i, x) && i < |s.tasks| && s.tasks[i].Queued? && s.tasks[i].tree.File? && s.tasks[i].path == x
    ensures forall j :: 0 <= j < |s.tasks| && s.tasks[j].Queued? && s.tasks[j].path == x ==> j == i
  {
    i :| TodoAt(s, i, x);
    forall j | 0 <= j < |s.tasks| && s.tasks[j].Queued? && s.tasks[j].path == x ensures j == i {
      assert TodoAt(s, j, x);
    }
  }

  /** The upload to the clashing name comes first, if there is one. */
  lemma FinishOther(c: Plan, s: State, p: Path) returns (es: seq<Event>, s': State)
    requires Early(c, s) && Spread(s) && ClashAt(c, p)
    ensures Leads(c.apart, s, es, s') && Spread(s') && |s'.tasks| == |s.tasks|
    ensures SameAt(s'.dst, s.dst, p)
    ensures forall i :: 0 <= i < |s.tasks| && s'.tasks[i].Queued? ==>
      s'.tasks[i] == s.tasks[i] && s.tasks[i].path != Aside(p)
    ensures forall i :: 0 <= i < |s.tasks| && s.tasks[i].Queued? && s.tasks[i].path == p ==> s'.tasks[i] == s.tasks[i]
  {
    if Held(s, Aside(p)) {
      var j := Holder(c, s, Aside(p));
      es, s' := FinishTask(c.apart, s, j);
      OtherFinished(c.apart, s, s', p, j);
    } else {
      Stay(c.apart, s);
      es, s' := [], s;
      forall i | 0 <= i < |s.tasks| && s.tasks[i].Queued? ensures s.tasks[i].path != Aside(p) {
        NotQueued(s, i, Aside(p));
      }
    }
  }

  lemma NotQueued(s: State, i: nat, x: Path)
    requires Spread(s) && i < |s.tasks| && s.tasks[i].Queued? && !Held(s, x)
    ensures s.tasks[i].path != x
  {
    assert TodoAt(s, i, s.tasks[i].path);
  }

  lemma OtherFinished(apart: bool, s: State, s': State, p: Path, j: nat)
    requires p != [] && Spread(s) && j < |s.tasks| && Finishes(apart, s, s', j)
    requires s.tasks[j].Queued? && s.tasks[j].tree.File? && s.tasks[j].path == Aside(p)
    requires forall i :: 0 <= i < |s.tasks| && s.tasks[i].Queued? && s.tasks[i].path == Aside(p) ==> i == j
    ensures Spread(s') && |s'.tasks| == |s.tasks| && SameAt(s'.dst, s.dst, p)
    ensures forall i :: 0 <= i < |s.tasks| && s'.tasks[i].Queued? ==>
      s'.tasks[i] == s.tasks[i] && s.tasks[i].path != Aside(p)
    ensures forall i :: 0 <= i < |s.tasks| && s.tasks[i].Queued? && s.tasks[i].path == p ==> s'.tasks[i] == s.tasks[i]
  {
    AsideOther(p);
    assert |Aside(Aside(p))| == |p| && |Aside(Aside(p))[|p| - 1]| > |p[|p| - 1]|;
  }

  /** Then the upload that puts its old file there, and removes it in the end. */
  lemma FinishClash(c: Plan, s0: State, s: State, p: Path) returns (es: seq<Event>, s': State)
    requires Early(c, s0) && Spread(s0) && ClashAt(c, p)
    requires Spread(s) && |s.tasks| == |s0.tasks| && SameAt(s.dst, s0.dst, p)
    requires forall i :: 0 <= i < |s.tasks| && s.tasks[i].Queued? ==>
      s.tasks[i] == s0.tasks[i] && s0.tasks[i].path != Aside(p)
    requires forall i :: 0 <= i < |s.tasks| && s0.tasks[i].Queued? && s0.tasks[i].path == p ==>
      s.tasks[i] == s0.tasks[i]
    ensures Leads(c.apart, s, es, s') && Spread(s') && Unconcerned(s', Aside(p)) && Aside(p) !in s'.dst
  {
    assert Held(s0, p);
    var i := Holder(c, s0, p);
    var t := s0.tasks[i];
    assert Fits(c, p, c.target[p], Todo(t)[p]);
    es, s' := FinishTask(c.apart, s, i);
    forall k | 0 <= k < |s'.tasks| && s'.tasks[k].Queued?
      ensures s'.tasks[k].path != [] && s'.tasks[k].path != Aside(p) && Aside(s'.tasks[k].path) != Aside(p)
    {
      assert s'.tasks[k] == s0.tasks[k] && TaskOk(c, s0.tasks[k]);
      if Aside(s'.tasks[k].path) == Aside(p) {
        AsideApart(s'.tasks[k].path, p);
        assert false;
      }
    }
  }

  ghost predicate Completes(apart: bool, was: Files, jobs: seq<Job>, es: seq<Event>) {
    && NoFailure(es) && Run(apart, Init(was, jobs), es).Some?
    && AllClosed(Run(apart, Init(was, jobs), es).value)
  }

  lemma Clashes(c: Plan, s: State, p: Path) returns (es: seq<Event>, s': State)
    requires Early(c, s) && ClashAt(c, p)
    ensures Leads(c.apart, s, es, s') && Spread(s') && Unconcerned(s', Aside(p)) && Aside(p) !in s'.dst
  {
    var es1, s1 := SpreadOut(c, s);
    var es2, s2 := FinishOther(c, s1, p);
    Then(c.apart, s, es1, s1, es2, s2);
    es, s' := FinishClash(c, s1, s2, p);
    Then(c.apart, s, es1 + es2, s2, es, s');
    es := es1 + es2 + es;
  }

  lemma CompletesClashing(c: Plan, s: State, p: Path) returns (es: seq<Event>, s': State)
    requires Early(c, s) && ClashAt(c, p)
    ensures Leads(c.apart, s, es, s') && AllClosed(s') && Aside(p) !in s'.dst
  {
    var es1, s1 := Clashes(c, s, p);
    es, s' := FinishAll(c.apart, s1, 0, Aside(p));
    Then(c.apart, s, es1, s1, es, s');
    es := es1 + es;
  }

  lemma InitEarly(apart: bool, was: Files, jobs: seq<Job>)
    requires JobsOk(jobs)
    ensures Early(PlanFor(apart, was, jobs), Init(was, jobs))
  {
    InitKeeps(apart, was, jobs);
  }

  /** So there is a run without failures that leaves nothing under that name. */
  lemma ClashRun(apart: bool, was: Files, jobs: seq<Job>, p: Path) returns (es: seq<Event>)
    requires JobsOk(jobs) && ClashAt(PlanFor(apart, was, jobs), p)
    ensures Completes(apart, was, jobs, es) && Aside(p) !in Run(apart, Init(was, jobs), es).value.dst
  {
    InitEarly(apart, was, jobs);
    var s;
    es, s := CompletesClashing(PlanFor(apart, was, jobs), Init(was, jobs), p);
  }

  /** Every run without failures leaves the result exactly if no file goes aside under a name
      that is some file's own. */
  lemma ResultIffNoClash(apart: bool, was: Files, jobs: seq<Job>)
    requires JobsOk(jobs)
    ensures NoClash(PlanFor(apart, was, jobs)) <==>
      forall es :: Completes(apart, was, jobs, es) ==>
        Run(apart, Init(was, jobs), es).value.dst == Result(was, Target(jobs))
  {
    var c := PlanFor(apart, was, jobs);
    if NoClash(c) {
      forall es | Completes(apart, was, jobs, es)
        ensures Run(apart, Init(was, jobs), es).value.dst == Result(was, Target(jobs))
      {
        AnyOrderSameResult(apart, was, jobs, es);
      }
    } else {
      var p :| p in c.target && MovedAt(c, p) && !(Aside(p) !in c.target && Aside(p) !in c.was);
      var es := ClashRun(apart, was, jobs, p);
      assert Aside(p) in Result(was, Target(jobs));
    }
  }
}

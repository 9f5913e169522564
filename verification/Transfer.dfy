/** Copying, moving and merging as tasks: a task for a directory registers a task for each
    entry and a task for a file uploads it.  Transfers that share a group may be asked for
    at any time; tasks run in any order, interleaved, and any of them may fail. */
module Transfer {
  import opened Wrappers
  import opened TaskGroup

  type Path = seq<string>
  type Content = seq<bv8>

  /** A file or directory of the source. */
  datatype Tree = File(content: Content) | Dir(entries: Entries)
  datatype Entries = Nil | Cons(name: string, tree: Tree, rest: Entries)

  datatype Mode = Copy(skipExisting: bool) | Move | Merge

  /** The source object at src is to go to path. */
  datatype Job = Job(mode: Mode, path: Path, tree: Tree, src: Path)

  /** A transfer that was not asked for yet; a task for the source object `tree` that goes to
      `path`; a directory task that has listed its source and has yet to register the entries
      left; an upload under way, `moved` if the old file was given another name first; an
      upload that is over, `sent` if it succeeded, with the old file still under that name;
      a task that has ended. */
  datatype Task =
    | Asked(job: Job)
    | Queued(mode: Mode, path: Path, tree: Tree)
    | Listing(mode: Mode, path: Path, left: Entries, existing: set<string>)
    | Uploading(path: Path, content: Content, moved: bool)
    | Tidying(path: Path, content: Content, sent: bool)
    | Closed

  /** The files of the destination, the tasks in the order they were added, and the tables
      of the coordinator.  `given` are the payloads handed in, `ended` the ends of the
      group, `succeeded` whether some task succeeded since the last of them, and `failed`
      the paths whose upload began and did not succeed. */
  datatype State = State(dst: map<Path, Content>, tasks: seq<Task>, groups: Groups,
                         given: seq<Payload>, ended: seq<Outcome>, succeeded: bool, failed: set<Path>)

  /** What happens next, and to which task.  A broken upload leaves `left` at its path; `done`
      says whether the old file could be removed or given its name back. */
  datatype Event =
    | Start(i: nat)
    | Begin(i: nat)
    | Register(i: nat)
    | Prepare(i: nat)
    | Send(i: nat)
    | Break(i: nat, left: Option<Content>)
    | Tidy(i: nat, done: bool)
    | End(i: nat, ok: bool)

  function Names(es: Entries): set<string> {
    if es.Nil? then {} else {es.name} + Names(es.rest)
  }

  /** No directory lists a name twice. */
  predicate TreeOk(t: Tree) {
    t.File? || EntriesOk(t.entries)
  }

  predicate EntriesOk(es: Entries) {
    es.Nil? || (es.name !in Names(es.rest) && TreeOk(es.tree) && EntriesOk(es.rest))
  }

  /*** the steps ***/

  const GROUP := "group"

  const SUFFIX := ".openlist_to_delete"

  /** The name an old file gets while its successor is uploaded. */
  function Aside(p: Path): Path {
    if p == [] then [SUFFIX] else p[..|p| - 1] + [p[|p| - 1] + SUFFIX]
  }

  /** Nothing was asked for yet. */
  function Init(dst: map<Path, Content>, jobs: seq<Job>): State {
    State(dst, seq(|jobs|, i requires 0 <= i < |jobs| => Asked(jobs[i])), EMPTY, [], [], false, {})
  }

  /** A copied file that is already there with the same size is left alone. */
  predicate Skips(mode: Mode, dst: map<Path, Content>, path: Path, content: Content) {
    mode.Copy? && mode.skipExisting && path in dst && |dst[path]| == |content|
  }

  /** The task ends and the coordinator is told. */
  function Close(s: State, i: nat, ok: bool): State
    requires i < |s.tasks|
  {
    var (groups, outcome) := DoneWith(s.groups, GROUP, ok);
    s.(tasks := s.tasks[i := Closed], groups := groups,
       ended := if outcome.Ended? then s.ended + [outcome] else s.ended,
       succeeded := if outcome.Ended? then false else s.succeeded || ok)
  }

  /** A transfer is asked for: its first task is handed to the task manager. */
  function StartTask(s: State, i: nat): State
    requires i < |s.tasks| && s.tasks[i].Asked?
  {
    var job := s.tasks[i].job;
    var payload := if job.mode.Move? then Some(SrcPathToRemove(job.src)) else None;
    s.(tasks := s.tasks[i := Queued(job.mode, job.path, job.tree)],
       groups := Appended(Added(s.groups, GROUP, None), GROUP, payload),
       given := if payload.Some? then s.given + [payload.value] else s.given)
  }

  function BeginTask(s: State, i: nat): State
    requires i < |s.tasks| && s.tasks[i].Queued? && s.tasks[i].tree.Dir?
  {
    var t := s.tasks[i];
    var existing :=
      if t.mode.Merge? then set p | p in s.dst && |p| == |t.path| + 1 && t.path <= p :: p[|t.path|] else {};
    s.(tasks := s.tasks[i := Listing(t.mode, t.path, t.tree.entries, existing)],
       groups := Appended(s.groups, GROUP, Some(DstPathToHook(t.path))),
       given := s.given + [DstPathToHook(t.path)])
  }

  function RegisterTask(s: State, i: nat): State
    requires i < |s.tasks| && s.tasks[i].Listing? && s.tasks[i].left.Cons?
  {
    var t := s.tasks[i];
    var es := t.left;
    var tasks := s.tasks[i := t.(left := es.rest)];
    if t.mode.Merge? && es.tree.File? && es.name in t.existing then
      s.(tasks := tasks)
    else
      s.(tasks := tasks + [Queued(t.mode, t.path + [es.name], es.tree)], groups := Added(s.groups, GROUP, None))
  }

  /** The upload makes room: an existing empty file is removed; where nothing may be
      overwritten, another existing file gets another name. */
  function PrepareUpload(apart: bool, s: State, i: nat): State
    requires i < |s.tasks| && s.tasks[i].Queued? && s.tasks[i].tree.File?
  {
    var (p, content) := (s.tasks[i].path, s.tasks[i].tree.content);
    if p in s.dst && s.dst[p] == [] then
      s.(dst := s.dst - {p}, tasks := s.tasks[i := Uploading(p, content, false)])
    else if p in s.dst && apart then
      s.(dst := s.dst[Aside(p) := s.dst[p]] - {p}, tasks := s.tasks[i := Uploading(p, content, true)])
    else
      s.(tasks := s.tasks[i := Uploading(p, content, false)])
  }

  function SendUpload(s: State, i: nat): State
    requires i < |s.tasks| && s.tasks[i].Uploading?
  {
    var t := s.tasks[i];
    var s1 := s.(dst := s.dst[t.path := t.content]);
    if t.moved then s1.(tasks := s.tasks[i := Tidying(t.path, t.content, true)]) else Close(s1, i, true)
  }

  function BreakUpload(s: State, i: nat, left: Option<Content>): State
    requires i < |s.tasks| && s.tasks[i].Uploading?
  {
    var t := s.tasks[i];
    var dst := if left.Some? then s.dst[t.path := left.value] else s.dst - {t.path};
    var s1 := s.(dst := dst, failed := s.failed + {t.path});
    if t.moved then s1.(tasks := s.tasks[i := Tidying(t.path, t.content, false)]) else Close(s1, i, false)
  }

  /** After an upload the old file is removed; after a broken one it gets its name back. */
  function TidyUpload(s: State, i: nat, done: bool): State
    requires i < |s.tasks| && s.tasks[i].Tidying?
  {
    var t := s.tasks[i];
    var q := Aside(t.path);
    var dst :=
      if !done then s.dst
      else if t.sent || q !in s.dst then s.dst - {q}
      else s.dst[t.path := s.dst[q]] - {q};
    Close(s.(dst := dst, failed := if done then s.failed else s.failed + {t.path}), i, t.sent && done)
  }

  /** What a task can do next; `apart` says that the storage does not overwrite files. */
  function Next(apart: bool, s: State, e: Event): Option<State> {
    if e.i >= |s.tasks| then None
    else
      var t := s.tasks[e.i];
      match e
      case Start(i) => if t.Asked? then Some(StartTask(s, i)) else None
      case Begin(i) => if t.Queued? && t.tree.Dir? then Some(BeginTask(s, i)) else None
      case Register(i) => if t.Listing? && t.left.Cons? then Some(RegisterTask(s, i)) else None
      case Prepare(i) =>
        if t.Queued? && t.tree.File? && !Skips(t.mode, s.dst, t.path, t.tree.content) then
          Some(PrepareUpload(apart, s, i))
        else None
      case Send(i) => if t.Uploading? then Some(SendUpload(s, i)) else None
      case Break(i, left) => if t.Uploading? then Some(BreakUpload(s, i, left)) else None
      case Tidy(i, done) => if t.Tidying? then Some(TidyUpload(s, i, done)) else None
      case End(i, ok) => if if ok then Through(s, t) else t.Queued? || t.Listing? then Some(Close(s, i, ok)) else None
  }

  /** The task has nothing left to do: its file is skipped, or its entries are registered. */
  predicate Through(s: State, t: Task) {
    if t.Queued? then t.tree.File? && Skips(t.mode, s.dst, t.path, t.tree.content)
    else t.Listing? && t.left.Nil?
  }

  function Run(apart: bool, start: State, es: seq<Event>): Option<State> {
    if es == [] then Some(start)
    else
      var s := Run(apart, start, es[..|es| - 1]);
      if s.None? then None else Next(apart, s.value, es[|es| - 1])
  }

  /*** the group ***/

  predicate Alive(t: Task) {
    !t.Asked? && !t.Closed?
  }

  /** The tasks that were added and have not ended. */
  function Live(tasks: seq<Task>): set<nat> {
    set i: nat | i < |tasks| && Alive(tasks[i])
  }

  /** The payloads of the ends so far, in order. */
  function Delivered(ended: seq<Outcome>): seq<Payload> {
    if ended == [] then []
    else
      var last := ended[|ended| - 1];
      Delivered(ended[..|ended| - 1]) + if last.Ended? then last.gathered else []
  }

  /** The group counts the live tasks; payloads are handed on by an end or still gathered. */
  predicate GroupOk(s: State) {
    && StateOf(s.groups, GROUP) == GroupState(|Live(s.tasks)|, s.succeeded)
    && s.given == Delivered(s.ended) + Gathered(s.groups, GROUP)
    && (Live(s.tasks) == {} ==> !s.succeeded && Gathered(s.groups, GROUP) == [])
    && (forall k :: 0 <= k < |s.ended| ==> s.ended[k].Ended?)
  }

  lemma LiveSet(tasks: seq<Task>, i: nat, t: Task)
    requires i < |tasks|
    ensures Live(tasks[i := t]) == if Alive(t) then Live(tasks) + {i} else Live(tasks) - {i}
  {
  }

  lemma LiveMore(tasks: seq<Task>, t: Task)
    requires Alive(t)
    ensures Live(tasks + [t]) == Live(tasks) + {|tasks|}
  {
  }

  /** A step of task i, which succeeds if `ok` says so, ends the group exactly if it ends the
      last live task: with all that was gathered since the last end, and running the hook if
      one of the tasks since then succeeded. */
  predicate Counts(s: State, s': State, i: nat, ok: bool) {
    && GroupOk(s')
    && s'.ended == s.ended + (if Live(s.tasks) == {i} && Live(s'.tasks) == {} then [LastEnd(s, ok)] else [])
  }

  function LastEnd(s: State, ok: bool): Outcome {
    Ended(Gathered(s.groups, GROUP), s.succeeded || ok)
  }

  lemma CloseCounts(s: State, i: nat, ok: bool)
    requires GroupOk(s) && i in Live(s.tasks)
    ensures Counts(s, Close(s, i, ok), i, ok)
  {
    LiveSet(s.tasks, i, Closed);
    if Live(s.tasks) == {i} {
      assert (s.ended + [LastEnd(s, ok)])[..|s.ended|] == s.ended;
    } else {
      assert Live(s.tasks) == (Live(s.tasks) - {i}) + {i};
    }
  }

  lemma ChangeCounts(s: State, s': State, i: nat, t: Task, ok: bool)
    requires GroupOk(s) && i in Live(s.tasks) && Alive(t) && s'.tasks == s.tasks[i := t]
    requires s'.groups == s.groups && s'.given == s.given && s'.ended == s.ended && s'.succeeded == s.succeeded
    ensures Counts(s, s', i, ok)
  {
    LiveSet(s.tasks, i, t);
    assert Live(s.tasks) + {i} == Live(s.tasks);
  }

  lemma StartCounts(s: State, i: nat)
    requires GroupOk(s) && i < |s.tasks| && s.tasks[i].Asked?
    ensures Counts(s, StartTask(s, i), i, false)
  {
    LiveSet(s.tasks, i, Queued(s.tasks[i].job.mode, s.tasks[i].job.path, s.tasks[i].job.tree));
  }

  lemma BeginCounts(s: State, i: nat)
    requires GroupOk(s) && i < |s.tasks| && s.tasks[i].Queued? && s.tasks[i].tree.Dir?
    ensures Counts(s, BeginTask(s, i), i, false)
  {
    LiveSet(s.tasks, i, BeginTask(s, i).tasks[i]);
    assert i in Live(s.tasks) && Live(BeginTask(s, i).tasks) == Live(s.tasks);
  }

  lemma RegisterCounts(s: State, i: nat)
    requires GroupOk(s) && i < |s.tasks| && s.tasks[i].Listing? && s.tasks[i].left.Cons?
    ensures Counts(s, RegisterTask(s, i), i, false)
  {
    var t := s.tasks[i];
    var less := t.(left := t.left.rest);
    LiveSet(s.tasks, i, less);
    LiveMore(s.tasks[i := less], Queued(t.mode, t.path + [t.left.name], t.left.tree));
    assert i in Live(s.tasks) && Live(s.tasks[i := less]) == Live(s.tasks);
  }

  /** Whether the event is the success of a task. */
  predicate Succeeds(s: State, e: Event) {
    match e
    case Send(_) => true
    case Tidy(i, done) => done && i < |s.tasks| && s.tasks[i].Tidying? && s.tasks[i].sent
    case End(_, ok) => ok
    case _ => false
  }

  lemma StepCounts(apart: bool, s: State, e: Event)
    requires GroupOk(s) && Next(apart, s, e).Some?
    ensures Counts(s, Next(apart, s, e).value, e.i, Succeeds(s, e))
  {
    match e
    case Start(i) => StartCounts(s, i);
    case Begin(i) => BeginCounts(s, i);
    case Register(i) => RegisterCounts(s, i);
    case Prepare(i) => ChangeCounts(s, PrepareUpload(apart, s, i), i, PrepareUpload(apart, s, i).tasks[i], false);
    case Send(i) => SendCounts(s, i);
    case Break(i, left) => BreakCounts(s, i, left);
    case Tidy(i, done) => TidyCounts(s, i, done);
    case End(i, ok) => CloseCounts(s, i, ok);
  }

  lemma SendCounts(s: State, i: nat)
    requires GroupOk(s) && i < |s.tasks| && s.tasks[i].Uploading?
    ensures Counts(s, SendUpload(s, i), i, true)
  {
    var s' := SendUpload(s, i);
    if s.tasks[i].moved {
      ChangeCounts(s, s', i, s'.tasks[i], true);
    } else {
      CloseCounts(s.(dst := s'.dst), i, true);
    }
  }

  lemma BreakCounts(s: State, i: nat, left: Option<Content>)
    requires GroupOk(s) && i < |s.tasks| && s.tasks[i].Uploading?
    ensures Counts(s, BreakUpload(s, i, left), i, false)
  {
    var s' := BreakUpload(s, i, left);
    if s.tasks[i].moved {
      ChangeCounts(s, s', i, s'.tasks[i], false);
    } else {
      CloseCounts(s.(dst := s'.dst, failed := s'.failed), i, false);
    }
  }

  lemma TidyCounts(s: State, i: nat, done: bool)
    requires GroupOk(s) && i < |s.tasks| && s.tasks[i].Tidying?
    ensures Counts(s, TidyUpload(s, i, done), i, s.tasks[i].sent && done)
  {
    var s' := TidyUpload(s, i, done);
    CloseCounts(s.(dst := s'.dst, failed := s'.failed), i, s.tasks[i].sent && done);
  }

  lemma {:induction false} RunCounts(apart: bool, dst: map<Path, Content>, jobs: seq<Job>, es: seq<Event>)
    requires Run(apart, Init(dst, jobs), es).Some?
    ensures GroupOk(Run(apart, Init(dst, jobs), es).value)
  {
    if es == [] {
      assert Live(Init(dst, jobs).tasks) == {};
    } else {
      RunCounts(apart, dst, jobs, es[..|es| - 1]);
      StepCounts(apart, Run(apart, Init(dst, jobs), es[..|es| - 1]).value, es[|es| - 1]);
    }
  }

  /** However many transfers share the group: it is pending for exactly the tasks that are
      live, and every payload handed in was handed on by one of its ends or waits for the
      next. */
  lemma GroupFollowsTasks(apart: bool, dst: map<Path, Content>, jobs: seq<Job>, es: seq<Event>)
    requires Run(apart, Init(dst, jobs), es).Some?
    ensures var s := Run(apart, Init(dst, jobs), es).value;
      && StateOf(s.groups, GROUP).pending == |Live(s.tasks)|
      && s.given == Delivered(s.ended) + Gathered(s.groups, GROUP)
      && (Live(s.tasks) == {} ==> s.given == Delivered(s.ended))
  {
    RunCounts(apart, dst, jobs, es);
  }

  /** The group ends exactly with the last live task, of whatever transfer, and then with
      all that was handed in since its last end. */
  lemma EndsWithTheLast(apart: bool, dst: map<Path, Content>, jobs: seq<Job>, es: seq<Event>, e: Event)
    requires Run(apart, Init(dst, jobs), es).Some? && Next(apart, Run(apart, Init(dst, jobs), es).value, e).Some?
    ensures var s := Run(apart, Init(dst, jobs), es).value;
      var s' := Next(apart, s, e).value;
      if Live(s.tasks) != {} && Live(s'.tasks) == {} then s'.ended == s.ended + [LastEnd(s, Succeeds(s, e))]
      else s'.ended == s.ended
  {
    RunCounts(apart, dst, jobs, es);
    var s := Run(apart, Init(dst, jobs), es).value;
    StepCounts(apart, s, e);
    OneLess(apart, s, e);
  }

  /** A step ends no task but its own. */
  lemma OneLess(apart: bool, s: State, e: Event)
    requires Next(apart, s, e).Some?
    ensures Live(s.tasks) <= Live(Next(apart, s, e).value.tasks) + {e.i}
    ensures e.i in Live(s.tasks) || (s.tasks[e.i].Asked? && e.i in Live(Next(apart, s, e).value.tasks))
    ensures OthersStay(s.tasks, Next(apart, s, e).value.tasks, e.i)
  {
    var tasks := Next(apart, s, e).value.tasks;
    assert OthersStay(s.tasks, tasks, e.i);
    forall k | k in Live(s.tasks) && k != e.i ensures k in Live(tasks) {
      assert tasks[k] == s.tasks[k];
    }
  }

  /** A task may be added; only task i is changed; neither is one to be asked for. */
  predicate OthersStay(tasks: seq<Task>, tasks': seq<Task>, i: nat) {
    && i < |tasks| <= |tasks'| <= |tasks| + 1
    && !tasks'[i].Asked? && (|tasks'| > |tasks| ==> !tasks'[|tasks|].Asked?)
    && (forall k :: 0 <= k < |tasks| && k != i ==> tasks'[k] == tasks[k])
  }

  /** A single transfer completes once: when, and only when, its last task has ended. */
  lemma CompletesOnce(apart: bool, dst: map<Path, Content>, job: Job, es: seq<Event>)
    requires Run(apart, Init(dst, [job]), es).Some?
    ensures var s := Run(apart, Init(dst, [job]), es).value;
      && (s.ended != [] <==> forall i :: 0 <= i < |s.tasks| ==> s.tasks[i].Closed?)
      && |s.ended| <= 1 && (s.ended != [] ==> s.ended[0].Ended? && s.ended[0].gathered == s.given)
  {
    OnceRuns(apart, dst, job, es);
    RunCounts(apart, dst, [job], es);
    var s := Run(apart, Init(dst, [job]), es).value;
    OnceAtTheEnd(s);
  }

  lemma OnceAtTheEnd(s: State)
    requires GroupOk(s) && Once(s)
    ensures s.ended != [] <==> forall i :: 0 <= i < |s.tasks| ==> s.tasks[i].Closed?
    ensures s.ended != [] ==> |s.ended| == 1 && s.ended[0].Ended? && s.ended[0].gathered == s.given
  {
    if s.ended != [] {
      assert s.ended[..0] == [] && Delivered(s.ended) == Delivered(s.ended[..0]) + s.ended[0].gathered;
      forall i | 0 <= i < |s.tasks| ensures s.tasks[i].Closed? {
        assert i !in Live(s.tasks);
      }
    } else if Live(s.tasks) != {} {
      var i :| i in Live(s.tasks);
      assert !s.tasks[i].Closed?;
    }
  }

  /** Before it is asked for there is one task, and afterwards none that could be. */
  predicate Once(s: State) {
    && |s.tasks| >= 1
    && (s.tasks[0].Asked? ==> |s.tasks| == 1 && s.ended == [])
    && (forall i :: 0 < i < |s.tasks| ==> !s.tasks[i].Asked?)
    && (Live(s.tasks) != {} ==> s.ended == [])
    && (Live(s.tasks) == {} && !s.tasks[0].Asked? ==> |s.ended| == 1)
  }

  lemma OnceStep(apart: bool, s: State, e: Event)
    requires GroupOk(s) && Once(s) && Next(apart, s, e).Some?
    ensures Once(Next(apart, s, e).value)
  {
    StepCounts(apart, s, e);
    OneLess(apart, s, e);
    OnceKept(s, Next(apart, s, e).value, e.i, Succeeds(s, e));
  }

  lemma OnceKept(s: State, s': State, i: nat, ok: bool)
    requires Once(s) && Counts(s, s', i, ok) && OthersStay(s.tasks, s'.tasks, i)
    requires Live(s.tasks) <= Live(s'.tasks) + {i}
    requires i in Live(s.tasks) || (s.tasks[i].Asked? && i in Live(s'.tasks))
    ensures Once(s')
  {
    forall k | 0 < k < |s'.tasks| ensures !s'.tasks[k].Asked? {
      if k < |s.tasks| && k != i {
        assert s'.tasks[k] == s.tasks[k];
      }
    }
    assert s'.tasks[0] == s.tasks[0] || i == 0;
    if Live(s'.tasks) == {} {
      assert Live(s.tasks) == {i};
    }
  }

  lemma {:induction false} OnceRuns(apart: bool, dst: map<Path, Content>, job: Job, es: seq<Event>)
    requires Run(apart, Init(dst, [job]), es).Some?
    ensures Once(Run(apart, Init(dst, [job]), es).value)
  {
    if es == [] {
      assert Live(Init(dst, [job]).tasks) == {};
    } else {
      OnceRuns(apart, dst, job, es[..|es| - 1]);
      RunCounts(apart, dst, [job], es[..|es| - 1]);
      OnceStep(apart, Run(apart, Init(dst, [job]), es[..|es| - 1]).value, es[|es| - 1]);
    }
  }
}

/** What runs of MapOf promise beyond single results: what a Range shows its callback,
    read off the schedule, and when look-ups that miss promote the dirty map. */
module MapRuns {
  import opened Wrappers
  import opened ConcurrentMap
  import opened MapRefinement

  /*** what Range shows ***/

  /** The calls that a Range has made of its callback, in order, and whether one of
      them stopped it. */
  datatype Shown = Shown(calls: seq<(Key, Value)>, stopped: bool)

  /** The value that k's entry in the snapshot of t's Range holds right now. */
  function Holding(s: State, t: nat, k: Key): Option<Value>
    requires t in s.threads
  {
    match s.threads[t]
    case Busy(Range, Iter(m, _, _), _) => if k in m then Deref(At(s.sh, m[k])) else None
    case _ => None
  }

  /** One step of the schedule: the callback is shown the key that t's iteration comes
      to, if its entry holds a value at that moment. */
  function Watch(s: State, step: (nat, Choice), t: nat, w: Shown): Shown
    requires Enabled(s, step.0, step.1)
  {
    if step.0 != t then w
    else match step.1
      case Call(_) => Shown([], false)
      case Stop => w.(stopped := true)
      case Pick(k) =>
        var v := Holding(s, t, k);
        if v.Some? then w.(calls := w.calls + [(k, v.value)]) else w
      case _ => w
  }

  /** What t's last Range has shown after these steps. */
  ghost function Watched(s: State, steps: seq<(nat, Choice)>, t: nat, w: Shown): Shown
    decreases |steps|
  {
    if steps == [] || !Enabled(s, steps[0].0, steps[0].1) then w
    else Watched(Step(s, steps[0].0, steps[0].1), steps[1..], t, Watch(s, steps[0], t, w))
  }

  /** No key was shown twice, and visited has exactly what was shown. */
  ghost predicate Matches(calls: seq<(Key, Value)>, visited: map<Key, Value>) {
    && (forall i, j :: 0 <= i < j < |calls| ==> calls[i].0 != calls[j].0)
    && (forall i :: 0 <= i < |calls| ==> calls[i].0 in visited && visited[calls[i].0] == calls[i].1)
    && (forall k :: k in visited ==> (k, visited[k]) in calls)
  }

  ghost predicate WatchOk(s: State, t: nat, w: Shown) {
    t in s.threads && s.threads[t].Busy? && s.threads[t].op.Range? ==>
      match s.threads[t].pc
      case Iter(m, todo, visited) => !w.stopped && Matches(w.calls, visited) && todo !! visited.Keys
      case Done(r) => r.Ranged? && Matches(w.calls, r.visited) && (r.complete <==> !w.stopped)
      case _ => w == Shown([], false)
  }

  lemma MatchesNext(calls: seq<(Key, Value)>, visited: map<Key, Value>, k: Key, v: Value)
    requires Matches(calls, visited) && k !in visited
    ensures Matches(calls + [(k, v)], visited[k := v])
  {
    var calls', visited' := calls + [(k, v)], visited[k := v];
    forall j | j in visited' ensures (j, visited'[j]) in calls' {
      if j == k {
        assert calls'[|calls|] == (k, v);
      } else {
        assert (j, visited[j]) in calls;
      }
    }
  }

  lemma WatchStep(s: State, step: (nat, Choice), t: nat, w: Shown)
    requires Enabled(s, step.0, step.1) && WatchOk(s, t, w)
    ensures WatchOk(Step(s, step.0, step.1), t, Watch(s, step, t, w))
  {
    if step.0 == t && s.threads[t].Busy? && s.threads[t].pc.Iter? && step.1.Pick? {
      var v := Holding(s, t, step.1.k);
      if s.threads[t].op.Range? && v.Some? {
        MatchesNext(w.calls, s.threads[t].pc.visited, step.1.k, v.value);
      }
    }
  }

  lemma {:induction false} WatchRun(s: State, steps: seq<(nat, Choice)>, s': State, t: nat, w: Shown)
    requires Runs(s, steps, s') && WatchOk(s, t, w)
    ensures WatchOk(s', t, Watched(s, steps, t, w))
    decreases |steps|
  {
    if steps != [] {
      WatchStep(s, steps[0], t, w);
      WatchRun(Step(s, steps[0].0, steps[0].1), steps[1..], s', t, Watch(s, steps[0], t, w));
    }
  }

  /** In every run a Range ends with exactly the keys it came to while their entries held
      a value, each shown once and with that value; it is complete exactly if its callback
      never stopped it, and then no key that was there all the time is missing. */
  lemma RangeShowsAll(s0: State, steps: seq<(nat, Choice)>, s: State, t: nat)
    requires Init(s0) && Runs(s0, steps, s)
    requires t in s.threads && s.threads[t].Busy? && s.threads[t].op.Range? && s.threads[t].pc.Done?
    ensures var r, w := s.threads[t].pc.r, Watched(s0, steps, t, Shown([], false));
      && r.Ranged? && Matches(w.calls, r.visited)
      && (r.complete <==> !w.stopped)
      && (r.complete ==> forall k :: (forall m :: m in s.threads[t].seen ==> k in m) ==> k in r.visited)
  {
    WatchRun(s0, steps, s, t, Shown([], false));
    ResultsJustified(s0, steps, s, t);
    var r, seen := s.threads[t].pc.r, s.threads[t].seen;
    if r.complete {
      forall k | forall m :: m in seen ==> k in m ensures k in r.visited {
        assert Saw(seen, k, Get(r.visited, k));
      }
    }
  }

  /*** misses ***/

  /** t is about to look up, under mu, a key that read does not have although dirty may. */
  predicate Misses(s: State, t: nat) {
    && t in s.threads && s.threads[t].Busy? && s.sh.amended
    && var th := s.threads[t];
       || (th.op.Load? && th.pc.InLock? && th.op.key !in s.sh.read)
       || (th.op.LoadOrStore? && th.pc.Put? && th.op.key !in s.sh.read)
  }

  ghost function MissCount(s: State, steps: seq<(nat, Choice)>): nat
    decreases |steps|
  {
    if steps == [] || !Enabled(s, steps[0].0, steps[0].1) then 0
    else (if Misses(s, steps[0].0) then 1 else 0) + MissCount(Step(s, steps[0].0, steps[0].1), steps[1..])
  }

  /** read does not have everything, in every state of the run. */
  ghost predicate Amended(s: State, steps: seq<(nat, Choice)>)
    decreases |steps|
  {
    s.sh.amended &&
    (steps != [] && Enabled(s, steps[0].0, steps[0].1) ==> Amended(Step(s, steps[0].0, steps[0].1), steps[1..]))
  }

  /** Such a thread is to count a miss. */
  lemma MissesKnown(s: State, t: nat)
    requires Inv(s) && Misses(s, t)
    ensures s.sh.dirty.Some? && (s.threads[t].pc.Put? ==> s.threads[t].pc.miss)
  {
    assert ThreadOk(s, t);
  }

  lemma CountedMiss(s: State, t: nat, c: Choice)
    requires Enabled(s, t, c) && Misses(s, t)
    requires s.sh.dirty.Some? && (s.threads[t].pc.Put? ==> s.threads[t].pc.miss)
    ensures var s' := Step(s, t, c);
      && (s'.sh.amended <==> s.sh.misses + 1 < |s.sh.dirty.value|)
      && (s'.sh.amended ==> s'.sh.misses == s.sh.misses + 1)
      && (!s'.sh.amended ==> s'.sh.read == s.sh.dirty.value)
  {
  }

  lemma NotMissed(s: State, t: nat, c: Choice)
    requires Inv(s) && Enabled(s, t, c) && s.sh.amended && !Misses(s, t)
    ensures var s' := Step(s, t, c);
      && (s'.sh.amended ==> s'.sh.misses == s.sh.misses)
      && (!s'.sh.amended ==> s.sh.dirty.Some? && s'.sh.read == s.sh.dirty.value)
  {
    assert ThreadOk(s, t);
  }

  lemma MissStep(s: State, t: nat, c: Choice)
    requires Inv(s) && Enabled(s, t, c) && s.sh.amended
    ensures var s' := Step(s, t, c);
      && (Misses(s, t) ==> (s'.sh.amended <==> s.sh.misses + 1 < |s.sh.dirty.value|))
      && (s'.sh.amended ==> s'.sh.misses == s.sh.misses + if Misses(s, t) then 1 else 0)
      && (!s'.sh.amended ==> s'.sh.read == s.sh.dirty.value)
  {
    if Misses(s, t) {
      MissesKnown(s, t);
      CountedMiss(s, t, c);
    } else {
      NotMissed(s, t, c);
    }
  }

  lemma NoMissYet(s: State, t: nat, c: Choice)
    requires Inv(s) && Enabled(s, t, c) && !s.sh.amended
    ensures Step(s, t, c).sh.misses == 0
  {
    assert ThreadOk(s, t);
  }

  lemma {:induction false} MissesCounted(s: State, steps: seq<(nat, Choice)>, s': State)
    requires Inv(s) && Runs(s, steps, s') && Amended(s, steps)
    ensures s'.sh.amended && s'.sh.misses == s.sh.misses + MissCount(s, steps)
    decreases |steps|
  {
    if steps != [] {
      MissStep(s, steps[0].0, steps[0].1);
      StepKeeps(s, steps[0].0, steps[0].1);
      MissesCounted(Step(s, steps[0].0, steps[0].1), steps[1..], s');
    }
  }

  /** After dirty has come to hold keys that read does not have, look-ups that miss
      promote it with the first one that makes them as many as dirty has keys: until then
      they are fewer. */
  lemma MissesPromote(s0: State, before: seq<(nat, Choice)>, s: State, first: (nat, Choice),
                      after: seq<(nat, Choice)>, s': State, t: nat, c: Choice)
    requires Init(s0) && Runs(s0, before, s) && !s.sh.amended && Enabled(s, first.0, first.1)
    requires var s1 := Step(s, first.0, first.1); Runs(s1, after, s') && Amended(s1, after)
    requires Misses(s', t) && Enabled(s', t, c)
    ensures var n := MissCount(Step(s, first.0, first.1), after) + 1;
      && s'.sh.dirty.Some?
      && (Step(s', t, c).sh.amended <==> n < |s'.sh.dirty.value|)
      && (!Step(s', t, c).sh.amended ==> Step(s', t, c).sh.read == s'.sh.dirty.value)
  {
    InitOk(s0);
    RunsKeep(s0, before, s);
    StepKeeps(s, first.0, first.1);
    var s1 := Step(s, first.0, first.1);
    NoMissYet(s, first.0, first.1);
    RunsKeep(s1, after, s');
    MissesCounted(s1, after, s');
    MissStep(s', t, c);
  }
}

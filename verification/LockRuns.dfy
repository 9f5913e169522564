/** Safety of the lock table over every run of its operations. Each operation is
    the function of LockSpec that the corresponding MemLS method is proved to be. */
module LockRuns {
  import opened Wrappers
  import opened Names
  import opened ByExpiry
  import opened LockSpec
  import opened Tokens

  /** The table, its token counter, and the tokens each outstanding confirmation holds. */
  datatype Sys = Sys(table: Table, gen: nat, outstanding: map<nat, set<string>>)

  /** Confirmations are numbered by the caller; a number is in use until its release. */
  datatype Op =
    | DoConfirm(id: nat, now: int, name0: string, name1: string, conds: seq<Condition>)
    | DoRelease(id: nat)
    | DoCreate(now: int, details: LockDetails)
    | DoRefresh(now: int, token: string, duration: int)
    | DoUnlock(now: int, token: string)

  predicate Enabled(s: Sys, op: Op) {
    match op
    case DoConfirm(id, _, _, _, _) => id !in s.outstanding
    case DoRelease(id) => id in s.outstanding
    case _ => true
  }

  ghost function Step(s: Sys, op: Op): Sys
    requires Enabled(s, op)
  {
    match op
    case DoConfirm(id, now, name0, name1, conds) =>
      var (t, r) := Confirm(s.table, now, name0, name1, conds);
      Sys(t, s.gen, if r.Some? then s.outstanding[id := r.value] else s.outstanding)
    case DoRelease(id) =>
      Sys(Release(s.table, s.outstanding[id]), s.gen, s.outstanding - {id})
    case DoCreate(now, details) =>
      var (t, r) := Create(s.table, now, details, FormatUint(s.gen + 1));
      Sys(t, if r.Ok? then s.gen + 1 else s.gen, s.outstanding)
    case DoRefresh(now, token, duration) =>
      Sys(Refresh(s.table, now, token, duration).0, s.gen, s.outstanding)
    case DoUnlock(now, token) =>
      Sys(Unlock(s.table, now, token).0, s.gen, s.outstanding)
  }

  /** The operations, in order, take s to s'. */
  ghost predicate Leads(s: Sys, ops: seq<Op>, s': Sys)
    decreases |ops|
  {
    if ops == [] then s' == s
    else Enabled(s, ops[0]) && Leads(Step(s, ops[0]), ops[1..], s')
  }

  /** s can be reached from a fresh table. */
  ghost predicate Reaches(seed: nat, ops: seq<Op>, s: Sys) {
    Leads(Sys(map[], seed, map[]), ops, s)
  }

  /*** the invariant ***/

  ghost predicate Accounted(s: Sys) {
    && (forall i, k :: i in s.outstanding && k in s.outstanding[i] ==> k in s.table && s.table[k].held)
    && (forall i, j, k :: i in s.outstanding && j in s.outstanding && k in s.outstanding[i] && k in s.outstanding[j] ==>
          i == j)
    && (forall k :: k in s.table && s.table[k].held ==> exists i :: i in s.outstanding && k in s.outstanding[i])
  }

  ghost predicate Inv(s: Sys) {
    && Rooted(s.table)
    && Exclusive(s.table)
    && (forall k :: k in s.table ==> ParseUint(k) <= s.gen)
    && Accounted(s)
  }

  lemma OverlapSymmetric(a: LockDetails, b: LockDetails)
    ensures Overlap(a, b) <==> Overlap(b, a)
  {
  }

  /** Changing durations, expiries or holds cannot create an overlap. */
  lemma ExclusiveKept(t: Table, t': Table)
    requires Exclusive(t) && Rooted(t) && t'.Keys <= t.Keys
    requires forall k :: k in t' ==>
      t'[k].details.root == t[k].details.root && t'[k].details.zeroDepth == t[k].details.zeroDepth
    ensures Exclusive(t') && Rooted(t')
  {
    forall a, b | a in t' && b in t' && a != b ensures !Overlap(t'[a].details, t'[b].details) {
      assert !Overlap(t[a].details, t[b].details);
      OverlapIsConflict(t[a].details, t[b].details);
      OverlapIsConflict(t'[a].details, t'[b].details);
    }
  }

  lemma ExclusiveAdded(t: Table, k: string, l: Lock)
    requires Exclusive(t) && Free(t, l.details) && k !in t
    ensures Exclusive(t[k := l])
  {
    var t' := t[k := l];
    forall a, b | a in t' && b in t' && a != b ensures !Overlap(t'[a].details, t'[b].details) {
      if a == k {
        assert !Overlap(l.details, t[b].details);
      } else if b == k {
        OverlapSymmetric(t[a].details, l.details);
      }
    }
  }

  lemma AccountedAdded(s: Sys, k: string, l: Lock)
    requires Accounted(s) && k !in s.table && !l.held
    ensures Accounted(Sys(s.table[k := l], s.gen + 1, s.outstanding))
  {
  }

  lemma CreateKeeps(s: Sys, now: int, details: LockDetails)
    requires Inv(s)
    ensures Inv(Step(s, DoCreate(now, details)))
  {
    var live := Collect(s.table, now);
    var k := FormatUint(s.gen + 1);
    var d := details.(root := SlashClean(details.root));
    ExclusiveKept(s.table, live);
    SlashCleanIsClean(details.root);
    FormatUintRoundTrip(s.gen + 1);
    OperationsCalm(s.table, now, "", 0);
    CalmKeeps(s, s.(table := live));
    if Free(live, d) {
      ExclusiveAdded(live, k, NewLock(d, now));
      AccountedAdded(s.(table := live), k, NewLock(d, now));
    }
  }

  /** From t to t' no lock appears, moves or is held anew, and held ones are untouched. */
  ghost predicate Calm(t: Table, t': Table) {
    && t'.Keys <= t.Keys
    && (forall k :: k in t' ==>
          t'[k].details.root == t[k].details.root && t'[k].details.zeroDepth == t[k].details.zeroDepth)
    && (forall k :: k in t && t[k].held ==> k in t' && t'[k] == t[k])
    && (forall k :: k in t' && t'[k].held ==> t[k].held)
  }

  lemma OperationsCalm(t: Table, now: int, token: string, duration: int)
    ensures Calm(t, Collect(t, now))
    ensures Calm(t, Refresh(t, now, token, duration).0)
    ensures Calm(t, Unlock(t, now, token).0)
  {
  }

  lemma AccountedKept(s: Sys, s': Sys)
    requires Accounted(s) && s'.outstanding == s.outstanding && Calm(s.table, s'.table)
    ensures Accounted(s')
  {
  }

  lemma CalmKeeps(s: Sys, s': Sys)
    requires Inv(s) && s'.outstanding == s.outstanding && s'.gen == s.gen && Calm(s.table, s'.table)
    ensures Inv(s')
  {
    ExclusiveKept(s.table, s'.table);
    AccountedKept(s, s');
  }

  lemma RefreshUnlockKeep(s: Sys, op: Op)
    requires Inv(s) && (op.DoRefresh? || op.DoUnlock?)
    ensures Inv(Step(s, op))
  {
    OperationsCalm(s.table, op.now, op.token, if op.DoRefresh? then op.duration else 0);
    CalmKeeps(s, Step(s, op));
  }

  lemma ConfirmKeeps(s: Sys, op: Op)
    requires Inv(s) && op.DoConfirm? && Enabled(s, op)
    ensures Inv(Step(s, op))
  {
    ExclusiveKept(s.table, Step(s, op).table);
    var live := Collect(s.table, op.now);
    var r := Claims(live, op.name0, op.name1, op.conds);
    OperationsCalm(s.table, op.now, "", 0);
    AccountedKept(s, s.(table := live));
    if r.Some? {
      ClaimsUnheld(live, op.name0, op.name1, op.conds);
      AccountedHold(s.(table := live), op.id, r.value);
    }
  }

  lemma AccountedHold(s: Sys, id: nat, tokens: set<string>)
    requires Accounted(s) && id !in s.outstanding
    requires forall k :: k in tokens ==> k in s.table && !s.table[k].held
    ensures Accounted(Sys(SetHeld(s.table, tokens, true), s.gen, s.outstanding[id := tokens]))
  {
    var s' := Sys(SetHeld(s.table, tokens, true), s.gen, s.outstanding[id := tokens]);
    forall k | k in s'.table && s'.table[k].held
      ensures exists i :: i in s'.outstanding && k in s'.outstanding[i]
    {
      if k in tokens {
        assert k in s'.outstanding[id];
      } else {
        var i :| i in s.outstanding && k in s.outstanding[i];
        assert k in s'.outstanding[i];
      }
    }
  }

  /** The locks a Confirm takes exist and are held by nobody. */
  lemma ClaimsUnheld(t: Table, name0: string, name1: string, conds: seq<Condition>)
    ensures var r := Claims(t, name0, name1, conds);
      r.Some? ==> forall k :: k in r.value ==> k in t && !t[k].held
  {
  }

  lemma ReleaseKeeps(s: Sys, id: nat)
    requires Inv(s) && id in s.outstanding
    ensures Inv(Step(s, DoRelease(id)))
  {
    var s' := Step(s, DoRelease(id));
    ExclusiveKept(s.table, s'.table);
    forall k | k in s'.table && s'.table[k].held
      ensures exists i :: i in s'.outstanding && k in s'.outstanding[i]
    {
      var i :| i in s.outstanding && k in s.outstanding[i];
      assert i in s'.outstanding;
    }
  }

  lemma StepKeeps(s: Sys, op: Op)
    requires Inv(s) && Enabled(s, op)
    ensures Inv(Step(s, op))
  {
    match op
    case DoConfirm(_, _, _, _, _) => ConfirmKeeps(s, op);
    case DoRelease(id) => ReleaseKeeps(s, id);
    case DoCreate(now, details) => CreateKeeps(s, now, details);
    case DoRefresh(_, _, _) => RefreshUnlockKeep(s, op);
    case DoUnlock(_, _) => RefreshUnlockKeep(s, op);
  }

  lemma {:induction false} LeadsKeeps(s: Sys, ops: seq<Op>, s': Sys)
    requires Inv(s) && Leads(s, ops, s')
    ensures Inv(s')
    decreases |ops|
  {
    if ops != [] {
      StepKeeps(s, ops[0]);
      LeadsKeeps(Step(s, ops[0]), ops[1..], s');
    }
  }

  /** Every reachable table satisfies the invariant. */
  lemma ReachableInv(seed: nat, ops: seq<Op>, s: Sys)
    requires Reaches(seed, ops, s)
    ensures Inv(s)
  {
    LeadsKeeps(Sys(map[], seed, map[]), ops, s);
  }

  /*** what a client may rely on ***/

  /** In every reachable table a resource is covered by at most one lock. */
  lemma OneLockPerResource(seed: nat, ops: seq<Op>, s: Sys, p: string, a: string, b: string)
    requires Reaches(seed, ops, s) && Clean(p)
    requires a in s.table && b in s.table && Covers(s.table[a].details, p) && Covers(s.table[b].details, p)
    ensures a == b
  {
    ReachableInv(seed, ops, s);
    assert Overlap(s.table[a].details, s.table[b].details);
  }

  /** Two outstanding confirmations never cover the same resource. */
  lemma ConfirmationsDisjoint(seed: nat, ops: seq<Op>, s: Sys, i: nat, j: nat, a: string, b: string, p: string)
    requires Reaches(seed, ops, s) && Clean(p)
    requires i in s.outstanding && j in s.outstanding && a in s.outstanding[i] && b in s.outstanding[j]
    requires a in s.table && b in s.table && Covers(s.table[a].details, p) && Covers(s.table[b].details, p)
    ensures i == j
  {
    ReachableInv(seed, ops, s);
    OneLockPerResource(seed, ops, s, p, a, b);
  }

  /** What a successful Confirm holds covers both named resources. */
  lemma ConfirmCovers(t: Table, now: int, name0: string, name1: string, conds: seq<Condition>, name: string)
    requires name != "" && (name == name0 || name == name1)
    requires Confirm(t, now, name0, name1, conds).1.Some?
    ensures var (t', r) := Confirm(t, now, name0, name1, conds);
      exists k :: k in r.value && k in t' && t'[k].held && Covers(t'[k].details, SlashClean(name))
  {
    var live := Collect(t, now);
    var k := Lookup(live, SlashClean(name), conds).value;
    var (t', r) := Confirm(t, now, name0, name1, conds);
    assert k in r.value && k in t' && t'[k].held && Covers(t'[k].details, SlashClean(name));
  }

  /** A failed Confirm holds nothing: it fails exactly when some name has no usable
      condition, and then only expired locks are gone. */
  lemma FailedConfirmHoldsNothing(t: Table, now: int, name0: string, name1: string, conds: seq<Condition>)
    ensures Confirm(t, now, name0, name1, conds).1.None? <==>
      exists name :: (name == name0 || name == name1) && name != ""
        && forall c :: c in conds ==> !Usable(Collect(t, now), SlashClean(name), c)
    ensures Confirm(t, now, name0, name1, conds).1.None? ==> Confirm(t, now, name0, name1, conds).0 == Collect(t, now)
  {
    var live := Collect(t, now);
    if Confirm(t, now, name0, name1, conds).1.None? {
      var name := if ClaimOne(live, name0, conds).None? then name0 else name1;
      assert (name == name0 || name == name1) && name != ""
        && forall c :: c in conds ==> !Usable(live, SlashClean(name), c);
    }
  }

  lemma ConfirmSparesHeld(t: Table, now: int, name0: string, name1: string, conds: seq<Condition>, k: string)
    requires k in t && t[k].held
    ensures var t' := Confirm(t, now, name0, name1, conds).0;
      k in t' && t'[k] == t[k]
    ensures var r := Confirm(t, now, name0, name1, conds).1;
      r.Some? ==> k !in r.value
  {
    ClaimsUnheld(Collect(t, now), name0, name1, conds);
  }

  lemma CreateSparesHeld(t: Table, now: int, details: LockDetails, token: string, k: string)
    requires k in t && t[k].held && token !in t
    ensures var t' := Create(t, now, details, token).0;
      k in t' && t'[k] == t[k]
  {
  }

  /** Only its own release can change a held lock: no other operation removes,
      refreshes or expires it. */
  lemma HeldStep(s: Sys, op: Op, i: nat, k: string)
    requires Inv(s) && Enabled(s, op) && i in s.outstanding && k in s.outstanding[i]
    requires op != DoRelease(i)
    ensures var s' := Step(s, op);
      i in s'.outstanding && k in s'.outstanding[i] && k in s'.table && s'.table[k] == s.table[k]
  {
    match op
    case DoRelease(j) =>
      assert k !in s.outstanding[j];
    case DoConfirm(_, now, name0, name1, conds) =>
      ConfirmSparesHeld(s.table, now, name0, name1, conds, k);
    case DoCreate(now, _) =>
      FormatUintRoundTrip(s.gen + 1);
      CreateSparesHeld(s.table, now, op.details, FormatUint(s.gen + 1), k);
    case DoRefresh(now, token, duration) =>
      OperationsCalm(s.table, now, token, duration);
    case DoUnlock(now, token) =>
      OperationsCalm(s.table, now, token, 0);
  }

  /** From the moment a confirmation succeeds until its own release, whatever else
      happens and however late it is, the locks it holds stay as they are. */
  lemma {:induction false} HeldUntilReleased(s: Sys, more: seq<Op>, s': Sys, i: nat, k: string)
    requires Inv(s) && Leads(s, more, s')
    requires i in s.outstanding && k in s.outstanding[i] && DoRelease(i) !in more
    ensures i in s'.outstanding && k in s'.outstanding[i]
    ensures k in s.table && k in s'.table && s'.table[k] == s.table[k] && s.table[k].held
    decreases |more|
  {
    if more != [] {
      var op := more[0];
      assert op in more;
      HeldStep(s, op, i, k);
      StepKeeps(s, op);
      HeldUntilReleased(Step(s, op), more[1..], s', i, k);
    }
  }
}

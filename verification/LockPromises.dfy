/** What each operation on the lock table promises its caller, said in terms of resources,
    times and tokens alone, and how long a lock lasts in a run. */
module LockPromises {
  import opened Wrappers
  import opened Names
  import opened ByExpiry
  import opened LockSpec
  import opened LockRuns
  import opened Tokens

  /** The lock has no time limit, is in use, or its time has not come. */
  predicate Alive(l: Lock, now: int) {
    l.details.duration < 0 || l.held || now < l.expiry
  }

  predicate AliveIn(t: Table, k: string, now: int) {
    k in t && Alive(t[k], now)
  }

  /** t' has the locks of t that are alive, unchanged, but for the one named k. */
  ghost predicate OthersStay(t: Table, t': Table, k: string, now: int) {
    forall j :: j != k ==> (j in t' <==> AliveIn(t, j, now)) && (j in t' ==> t'[j] == t[j])
  }

  /** Some resource at or below both roots, as far as the locks go down, is in both. */
  ghost predicate Share(a: LockDetails, b: LockDetails) {
    exists p :: Clean(p) && InLock(a, p) && InLock(b, p)
  }

  predicate InLock(d: LockDetails, p: string) {
    p == d.root || (!d.zeroDepth && (d.root == "/" || d.root + "/" <= p))
  }

  /** Unlocking succeeds exactly for a token that names a lock that is alive and not in use,
      and takes that lock out of the table and no other. */
  lemma UnlockExactly(t: Table, now: int, token: string)
    ensures var (t', r) := Unlock(t, now, token);
      && (r == None <==> AliveIn(t, token, now) && !t[token].held)
      && (r == Some(Locked) <==> AliveIn(t, token, now) && t[token].held)
      && (r == Some(NoSuchLock) <==> !AliveIn(t, token, now))
      && OthersStay(t, t', token, now)
      && (token in t' <==> AliveIn(t, token, now) && t[token].held)
      && (token in t' ==> t'[token] == t[token])
  {
  }

  /** Refreshing succeeds for the same tokens; the lock then lasts for the new duration. */
  lemma RefreshExactly(t: Table, now: int, token: string, duration: int)
    ensures var (t', r) := Refresh(t, now, token, duration);
      && (r.Ok? <==> AliveIn(t, token, now) && !t[token].held)
      && (r == Err(Locked) <==> AliveIn(t, token, now) && t[token].held)
      && (r == Err(NoSuchLock) <==> !AliveIn(t, token, now))
      && OthersStay(t, t', token, now)
      && (token in t' <==> AliveIn(t, token, now))
      && (r.Ok? ==>
            && r.value == t'[token].details == t[token].details.(duration := duration)
            && !t'[token].held
            && forall later :: Alive(t'[token], later) <==> duration < 0 || later < now + duration)
      && (r.Err? && token in t' ==> t'[token] == t[token])
  {
  }

  lemma InLockIsCovers(d: LockDetails, p: string)
    requires Clean(d.root) && Clean(p)
    ensures InLock(d, p) <==> Covers(d, p)
  {
  }

  lemma ShareIsOverlap(a: LockDetails, b: LockDetails)
    requires Clean(a.root) && Clean(b.root)
    ensures Share(a, b) <==> Overlap(a, b)
  {
    if Overlap(a, b) {
      var p :| Clean(p) && Covers(a, p) && Covers(b, p);
      InLockIsCovers(a, p);
      InLockIsCovers(b, p);
    }
    if Share(a, b) {
      var p :| Clean(p) && InLock(a, p) && InLock(b, p);
      InLockIsCovers(a, p);
      InLockIsCovers(b, p);
    }
  }

  /** A lock is granted exactly if it shares no resource with any lock that is alive; it is
      then in the table under its cleaned root, not in use, for as long as was asked. */
  lemma CreateExactly(t: Table, now: int, details: LockDetails, token: string)
    requires Rooted(t) && token !in t
    ensures var (t', r) := Create(t, now, details, token);
      var d := details.(root := SlashClean(details.root));
      && (r == Ok(token) <==> forall k :: AliveIn(t, k, now) ==> !Share(d, t[k].details))
      && (r != Ok(token) ==> r == Err(Locked))
      && OthersStay(t, t', token, now)
      && (token in t' <==> r.Ok?)
      && (r.Ok? ==>
            && t'[token].details == d && !t'[token].held
            && forall later :: Alive(t'[token], later) <==> details.duration < 0 || later < now + details.duration)
  {
    var live := Collect(t, now);
    var d := details.(root := SlashClean(details.root));
    SlashCleanIsClean(details.root);
    forall k | k in live ensures Share(d, t[k].details) <==> Overlap(d, live[k].details) {
      ShareIsOverlap(d, t[k].details);
    }
  }

  /** A confirmation puts the locks it names in use, each of them alive, free until then,
      named by a condition and over one of the resources; all else is as it was. */
  lemma ConfirmExactly(t: Table, now: int, name0: string, name1: string, conds: seq<Condition>)
    requires Rooted(t)
    ensures var (t', r) := Confirm(t, now, name0, name1, conds);
      var tokens := if r.Some? then r.value else {};
      && (forall k :: k in t' <==> AliveIn(t, k, now))
      && (forall k :: k in t' ==> t'[k] == t[k].(held := t[k].held || k in tokens))
      && (forall k :: k in tokens ==>
            && AliveIn(t, k, now) && !t[k].held
            && (exists c :: c in conds && c.token == k)
            && ((name0 != "" && InLock(t[k].details, SlashClean(name0)))
                || (name1 != "" && InLock(t[k].details, SlashClean(name1)))))
  {
    SlashCleanIsClean(name0);
    SlashCleanIsClean(name1);
    var live := Collect(t, now);
    var r := Claims(live, name0, name1, conds);
    if r.Some? {
      forall k | k in r.value
        ensures AliveIn(t, k, now) && !t[k].held
        ensures exists c :: c in conds && c.token == k
        ensures (name0 != "" && InLock(t[k].details, SlashClean(name0)))
                || (name1 != "" && InLock(t[k].details, SlashClean(name1)))
      {
        if ClaimOne(live, name0, conds) == Some({k}) {
          LookedUp(live, SlashClean(name0), conds);
          InLockIsCovers(t[k].details, SlashClean(name0));
        } else {
          LookedUp(live, SlashClean(name1), conds);
          InLockIsCovers(t[k].details, SlashClean(name1));
        }
      }
    }
  }

  lemma {:induction false} LookedUp(t: Table, name: string, conds: seq<Condition>)
    ensures var k := Lookup(t, name, conds); k.Some? ==> exists c :: c in conds && c.token == k.value
  {
    if conds != [] && !Usable(t, name, conds[0]) {
      LookedUp(t, name, conds[1..]);
    }
  }

  /** A release gives the locks back and changes nothing else of any lock. */
  lemma ReleaseExactly(t: Table, tokens: set<string>)
    ensures var t' := Release(t, tokens);
      && t'.Keys == t.Keys
      && forall k :: k in t ==> t'[k] == if k in tokens then t[k].(held := false) else t[k]
  {
  }

  /*** runs ***/

  /** The operation comes before the lock's time is over, and is no refresh or unlock of it. */
  predicate Spares(op: Op, k: string, l: Lock) {
    match op
    case DoConfirm(_, now, _, _, _) => l.details.duration < 0 || now < l.expiry
    case DoRelease(_) => true
    case DoCreate(now, _) => l.details.duration < 0 || now < l.expiry
    case DoRefresh(now, token, _) => token != k && (l.details.duration < 0 || now < l.expiry)
    case DoUnlock(now, token) => token != k && (l.details.duration < 0 || now < l.expiry)
  }

  /** A lock stays in the table, with its details and its time, until it is refreshed or
      unlocked or its time is over, whatever else happens and whoever uses it meanwhile. */
  lemma {:induction false} LockLasts(s: Sys, ops: seq<Op>, s': Sys, k: string)
    requires Inv(s) && Leads(s, ops, s') && k in s.table
    requires forall i :: 0 <= i < |ops| ==> Spares(ops[i], k, s.table[k])
    ensures k in s'.table && s'.table[k].details == s.table[k].details && s'.table[k].expiry == s.table[k].expiry
    decreases |ops|
  {
    if ops != [] {
      var s1 := Step(s, ops[0]);
      StepKeeps(s, ops[0]);
      FormatUintRoundTrip(s.gen + 1);
      OneStepLasts(s, ops[0], k);
      forall i | 0 <= i < |ops[1..]| ensures Spares(ops[1..][i], k, s1.table[k]) {
        assert Spares(ops[i + 1], k, s.table[k]);
      }
      LockLasts(s1, ops[1..], s', k);
    }
  }

  lemma OneStepLasts(s: Sys, op: Op, k: string)
    requires Enabled(s, op) && k in s.table && Spares(op, k, s.table[k]) && FormatUint(s.gen + 1) !in s.table
    ensures var t := Step(s, op).table;
      k in t && t[k].details == s.table[k].details && t[k].expiry == s.table[k].expiry
  {
    match op
    case DoConfirm(_, now, name0, name1, conds) => assert k in Collect(s.table, now);
    case DoRelease(_) =>
    case DoCreate(now, _) => assert k in Collect(s.table, now);
    case DoRefresh(now, _, _) => assert k in Collect(s.table, now);
    case DoUnlock(now, _) => assert k in Collect(s.table, now);
  }

  /** From its creation until then, no lock that shares a resource with it is granted. */
  lemma GrantedExcludes(seed: nat, before: seq<Op>, s: Sys, now: int, details: LockDetails, ops: seq<Op>, s': Sys,
                        later: int, other: LockDetails)
    requires Reaches(seed, before, s)
    requires var s1 := Step(s, DoCreate(now, details));
      var k := FormatUint(s.gen + 1);
      && Create(s.table, now, details, k).1.Ok?
      && Leads(s1, ops, s')
      && (forall i :: 0 <= i < |ops| ==> Spares(ops[i], k, s1.table[k]))
      && (details.duration < 0 || later < now + details.duration)
    requires Share(details.(root := SlashClean(details.root)), other.(root := SlashClean(other.root)))
    ensures Create(s'.table, later, other, FormatUint(s'.gen + 1)).1 == Err(Locked)
  {
    var k := FormatUint(s.gen + 1);
    var s1 := Step(s, DoCreate(now, details));
    ReachableInv(seed, before, s);
    StepKeeps(s, DoCreate(now, details));
    FormatUintRoundTrip(s.gen + 1);
    CreateExactly(s.table, now, details, k);
    LockLasts(s1, ops, s', k);
    LeadsKeeps(s1, ops, s');
    FormatUintRoundTrip(s'.gen + 1);
    assert Alive(s1.table[k], later);
    Refused(s'.table, later, other, FormatUint(s'.gen + 1), k);
  }

  lemma Refused(t: Table, now: int, details: LockDetails, token: string, k: string)
    requires Rooted(t) && token !in t && AliveIn(t, k, now)
    requires Share(t[k].details, details.(root := SlashClean(details.root)))
    ensures Create(t, now, details, token).1 == Err(Locked)
  {
    CreateExactly(t, now, details, token);
    ShareBothWays(t[k].details, details.(root := SlashClean(details.root)));
  }

  lemma ShareBothWays(a: LockDetails, b: LockDetails)
    ensures Share(a, b) <==> Share(b, a)
  {
  }

  /** After a lock has been given up, another on the same resources is granted at once. */
  lemma UnlockedIsFree(seed: nat, ops: seq<Op>, s: Sys, now: int, token: string, details: LockDetails)
    requires Reaches(seed, ops, s) && Unlock(s.table, now, token).1 == None
    requires SlashClean(details.root) == s.table[token].details.root
    requires s.table[token].details.zeroDepth ==> details.zeroDepth
    ensures var s' := Step(s, DoUnlock(now, token));
      Create(s'.table, now, details, FormatUint(s'.gen + 1)).1 == Ok(FormatUint(s'.gen + 1))
  {
    var s' := Step(s, DoUnlock(now, token));
    ReachableInv(seed, ops, s);
    StepKeeps(s, DoUnlock(now, token));
    UnlockExactly(s.table, now, token);
    FormatUintRoundTrip(s'.gen + 1);
    CreateExactly(s'.table, now, details, FormatUint(s'.gen + 1));
    var d := details.(root := SlashClean(details.root));
    forall k | AliveIn(s'.table, k, now) ensures !Share(d, s'.table[k].details) {
      assert !Overlap(s.table[token].details, s.table[k].details);
      ShareIsOverlap(d, s.table[k].details);
    }
  }
}

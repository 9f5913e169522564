/** Reference counts as plain values. */
module Counting {

  function Get(m: map<string, int>, s: string): int {
    if s in m then m[s] else 0
  }

  /** One more for each listed name. */
  function CountedUp(m: map<string, int>, names: seq<string>): map<string, int>
    decreases |names|
  {
    if names == [] then m
    else CountedUp(m[names[0] := Get(m, names[0]) + 1], names[1..])
  }

  /** One less for each listed name, forgetting names that reach zero. */
  function CountedDown(m: map<string, int>, names: seq<string>): map<string, int>
    decreases |names|
  {
    if names == [] then m
    else CountedDown(Less(m, names[0]), names[1..])
  }

  function Less(m: map<string, int>, s: string): map<string, int> {
    if Get(m, s) == 1 then m - {s} else m[s := Get(m, s) - 1]
  }

  ghost predicate Distinct(names: seq<string>) {
    forall i, j :: 0 <= i < j < |names| ==> names[i] != names[j]
  }

  ghost predicate Positive(m: map<string, int>) {
    forall s :: s in m ==> m[s] > 0
  }

  lemma {:induction false} CountedUpAt(m: map<string, int>, names: seq<string>, s: string)
    requires Distinct(names)
    ensures Get(CountedUp(m, names), s) == Get(m, s) + if s in names then 1 else 0
    ensures s in CountedUp(m, names) <==> s in m || s in names
    decreases |names|
  {
    if names != [] {
      CountedUpAt(m[names[0] := Get(m, names[0]) + 1], names[1..], s);
      assert names == [names[0]] + names[1..];
    }
  }

  lemma {:induction false} CountedDownAt(m: map<string, int>, names: seq<string>, s: string)
    requires Distinct(names) && Positive(m) && forall x :: x in names ==> x in m
    ensures Get(CountedDown(m, names), s) == Get(m, s) - if s in names then 1 else 0
    ensures s in CountedDown(m, names) <==> Get(m, s) > if s in names then 1 else 0
    decreases |names|
  {
    if names != [] {
      CountedDownAt(Less(m, names[0]), names[1..], s);
      assert names == [names[0]] + names[1..];
    }
  }
}

/** What the WebDAV lock table means: locks by token, the resources each one
    covers, and each operation as a function on that table. */
module LockSpec {
  import opened Wrappers
  import opened Names
  import opened ByExpiry
  import opened Counting

  datatype LockError = ConfirmationFailed | Locked | NoSuchLock

  datatype Result<+T> = Ok(value: T) | Err(error: LockError)

  datatype Condition = Condition(not: bool, token: string, etag: string)

  /** A lock as the protocol sees it. expiry is 0 when the duration is infinite. */
  datatype Lock = Lock(details: LockDetails, expiry: int, held: bool)

  type Table = map<string, Lock>

  /*** coverage (RFC 4918, sections 6.1 and 7.4) ***/

  predicate Covers(d: LockDetails, p: string) {
    if d.zeroDepth then p == d.root else Within(d.root, p)
  }

  /** The names of some resource that both locks would cover. */
  ghost predicate Overlap(a: LockDetails, b: LockDetails) {
    exists p :: Clean(p) && Covers(a, p) && Covers(b, p)
  }

  /** The executable test behind Overlap. */
  predicate Conflict(a: LockDetails, b: LockDetails) {
    || a.root == b.root
    || (!a.zeroDepth && Within(a.root, b.root))
    || (!b.zeroDepth && Within(b.root, a.root))
  }

  lemma OverlapIsConflict(a: LockDetails, b: LockDetails)
    requires Clean(a.root) && Clean(b.root)
    ensures Overlap(a, b) <==> Conflict(a, b)
  {
    if Conflict(a, b) {
      assert Covers(a, a.root) && Covers(b, b.root);
      var p := if !a.zeroDepth && Within(a.root, b.root) then b.root else a.root;
      assert Covers(a, p) && Covers(b, p);
    }
    if Overlap(a, b) {
      var p :| Clean(p) && Covers(a, p) && Covers(b, p);
      if !a.zeroDepth && !b.zeroDepth {
        if |a.root| <= |b.root| {
          WithinComparable(a.root, b.root, p);
        } else {
          WithinComparable(b.root, a.root, p);
        }
      }
    }
  }

  /** No resource is covered by two locks. */
  ghost predicate Exclusive(t: Table) {
    forall a, b :: a in t && b in t && a != b ==> !Overlap(t[a].details, t[b].details)
  }

  predicate Rooted(t: Table) {
    forall k :: k in t ==> Clean(t[k].details.root)
  }

  /** The new lock's coverage is disjoint from that of every lock in the table. */
  ghost predicate Free(t: Table, d: LockDetails) {
    forall k :: k in t ==> !Overlap(d, t[k].details)
  }

  lemma FreeByCoverage(t: Table, d: LockDetails, d': LockDetails)
    requires d.root == d'.root && d.zeroDepth == d'.zeroDepth
    ensures Free(t, d) <==> Free(t, d')
  {
    assert forall p :: Covers(d, p) <==> Covers(d', p);
    forall k | k in t ensures Overlap(d, t[k].details) <==> Overlap(d', t[k].details) {
    }
  }

  /*** the operations ***/

  predicate Expired(l: Lock, now: int) {
    !l.held && l.details.duration >= 0 && l.expiry <= now
  }

  function Collect(t: Table, now: int): Table {
    map k | k in t && !Expired(t[k], now) :: t[k]
  }

  lemma CollectRemoved(t: Table, k: string, now: int)
    requires k in t && Expired(t[k], now)
    ensures Collect(t - {k}, now) == Collect(t, now) && |t - {k}| < |t|
  {
    assert (t - {k}).Keys == t.Keys - {k};
  }

  function NewLock(d: LockDetails, now: int): Lock {
    Lock(d, if d.duration >= 0 then now + d.duration else 0, false)
  }

  ghost function Create(t: Table, now: int, details: LockDetails, token: string): (Table, Result<string>) {
    var live := Collect(t, now);
    var d := details.(root := SlashClean(details.root));
    if Free(live, d) then (live[token := NewLock(d, now)], Ok(token)) else (live, Err(Locked))
  }

  function Refresh(t: Table, now: int, token: string, duration: int): (Table, Result<LockDetails>) {
    var live := Collect(t, now);
    if token !in live then (live, Err(NoSuchLock))
    else if live[token].held then (live, Err(Locked))
    else
      var d := live[token].details.(duration := duration);
      (live[token := NewLock(d, now)], Ok(d))
  }

  function Unlock(t: Table, now: int, token: string): (Table, Option<LockError>) {
    var live := Collect(t, now);
    if token !in live then (live, Some(NoSuchLock))
    else if live[token].held then (live, Some(Locked))
    else (live - {token}, None)
  }

  /** A condition names a lock that covers the resource and that nobody holds. */
  predicate Usable(t: Table, name: string, c: Condition) {
    c.token in t && !t[c.token].held && Covers(t[c.token].details, name)
  }

  /** The token of the first usable condition. */
  function Lookup(t: Table, name: string, conds: seq<Condition>): (r: Option<string>)
    ensures r.Some? ==> r.value in t && !t[r.value].held && Covers(t[r.value].details, name)
    ensures r.None? <==> forall c :: c in conds ==> !Usable(t, name, c)
  {
    if conds == [] then None
    else if Usable(t, name, conds[0]) then Some(conds[0].token)
    else Lookup(t, name, conds[1..])
  }

  function SetHeld(t: Table, tokens: set<string>, held: bool): Table {
    map k | k in t :: if k in tokens then t[k].(held := held) else t[k]
  }

  lemma SetHeldCompose(t: Table, a: set<string>, b: set<string>, held: bool)
    ensures SetHeld(SetHeld(t, a, held), b, held) == SetHeld(t, a + b, held)
    ensures SetHeld(t, {}, held) == t
  {
  }

  lemma SetHeldOne(t: Table, k: string, held: bool)
    requires k in t
    ensures SetHeld(t, {k}, held) == t[k := t[k].(held := held)]
  {
  }

  /** Either the tokens now held, which between them cover the named resources,
      or a failure that holds nothing. */
  function Confirm(t: Table, now: int, name0: string, name1: string, conds: seq<Condition>)
      : (Table, Option<set<string>>)
  {
    var live := Collect(t, now);
    match Claims(live, name0, name1, conds)
    case None => (live, None)
    case Some(tokens) => (SetHeld(live, tokens, true), Some(tokens))
  }

  /** The locks that claim both names; empty names are ignored. */
  function Claims(t: Table, name0: string, name1: string, conds: seq<Condition>): Option<set<string>> {
    var r0, r1 := ClaimOne(t, name0, conds), ClaimOne(t, name1, conds);
    if r0.None? || r1.None? then None else Some(r0.value + r1.value)
  }

  function ClaimOne(t: Table, name: string, conds: seq<Condition>): Option<set<string>> {
    if name == "" then Some({})
    else match Lookup(t, SlashClean(name), conds)
      case None => None
      case Some(k) => Some({k})
  }

  function Release(t: Table, tokens: set<string>): Table {
    SetHeld(t, tokens, false)
  }

  /** The held locks of t, but for those in `released`, are unchanged in t'. */
  ghost predicate StayHeld(t: Table, t': Table, released: set<string>) {
    forall k :: k in t && t[k].held && k !in released ==> k in t' && t'[k] == t[k]
  }

  lemma OperationsKeepHeld(t: Table, now: int, token: string, duration: int, name0: string, name1: string,
                           conds: seq<Condition>)
    ensures StayHeld(t, Collect(t, now), {})
    ensures StayHeld(t, Refresh(t, now, token, duration).0, {})
    ensures StayHeld(t, Unlock(t, now, token).0, {})
    ensures StayHeld(t, Confirm(t, now, name0, name1, conds).0, {})
  {
  }

  lemma ReleaseKeepsOthersHeld(t: Table, tokens: set<string>)
    ensures StayHeld(t, Release(t, tokens), tokens)
  {
  }

  lemma CreateKeepsHeld(t: Table, now: int, details: LockDetails, token: string)
    requires token !in t
    ensures StayHeld(t, Create(t, now, details, token).0, {})
  {
  }

  /*** reference counts ***/

  /** The locks on n or below it. */
  function Below(t: Table, n: string): set<string> {
    set k | k in t && Within(n, t[k].details.root)
  }

  /** The name s counts the locks on or below it, and is recorded when there is one. */
  ghost predicate RefExact(t: Table, m: map<string, int>, s: string) {
    && (s in m ==> Clean(s) && m[s] > 0)
    && (Clean(s) ==> Get(m, s) == |Below(t, s)|)
  }

  ghost predicate RefsExact(t: Table, m: map<string, int>) {
    forall s :: RefExact(t, m, s)
  }

  lemma BelowAdded(t: Table, k: string, l: Lock, s: string)
    requires k !in t
    ensures |Below(t[k := l], s)| == |Below(t, s)| + if Within(s, l.details.root) then 1 else 0
  {
    var b := Below(t, s);
    assert k !in b;
    assert Below(t[k := l], s) == if Within(s, l.details.root) then b + {k} else b;
  }

  /** Locking a root counts one more at each name the walk visits. */
  lemma RefsAdded(t: Table, m: map<string, int>, k: string, l: Lock)
    requires RefsExact(t, m) && k !in t && Clean(l.details.root)
    ensures RefsExact(t[k := l], CountedUp(m, Chain(l.details.root)))
  {
    var r := l.details.root;
    var t', m' := t[k := l], CountedUp(m, Chain(r));
    ChainDistinct(r);
    forall s ensures RefExact(t', m', s) {
      assert RefExact(t, m, s);
      CountedUpAt(m, Chain(r), s);
      BelowAdded(t, k, l, s);
      if Clean(s) {
        ChainIsWithin(s, r);
      }
    }
  }

  lemma ChainRecorded(t: Table, m: map<string, int>, k: string, s: string)
    requires RefsExact(t, m) && k in t && Clean(t[k].details.root) && s in Chain(t[k].details.root)
    ensures s in m
  {
    ChainIsWithin(s, t[k].details.root);
    assert k in Below(t, s);
    assert RefExact(t, m, s);
  }

  /** Unlocking undoes that. */
  lemma RefsRemoved(t: Table, m: map<string, int>, k: string)
    requires RefsExact(t, m) && k in t && Clean(t[k].details.root)
    ensures forall s :: s in Chain(t[k].details.root) ==> s in m
    ensures RefsExact(t - {k}, CountedDown(m, Chain(t[k].details.root)))
  {
    var r := t[k].details.root;
    var t', m' := t - {k}, CountedDown(m, Chain(r));
    ChainDistinct(r);
    forall s | s in Chain(r) ensures s in m {
      ChainRecorded(t, m, k, s);
    }
    assert Positive(m) by {
      assert forall s :: s in m ==> RefExact(t, m, s);
    }
    assert t'[k := t[k]] == t;
    forall s ensures RefExact(t', m', s) {
      assert RefExact(t, m, s);
      CountedDownAt(m, Chain(r), s);
      BelowAdded(t', k, t[k], s);
      if Clean(s) {
        ChainIsWithin(s, r);
      }
    }
  }

  /** Counts only depend on which roots are locked. */
  lemma RefsSameRoots(t: Table, t': Table, m: map<string, int>)
    requires RefsExact(t, m) && t.Keys == t'.Keys
    requires forall k :: k in t ==> t[k].details.root == t'[k].details.root
    ensures RefsExact(t', m)
  {
    forall s ensures RefExact(t', m, s) {
      assert RefExact(t, m, s);
      assert Below(t', s) == Below(t, s);
    }
  }
}

/** Lock tokens are decimal numerals of a counter. */
module Tokens {

  function FormatUint(n: nat): (s: string)
    ensures s != ""
  {
    if n < 10 then [Digit(n)] else FormatUint(n / 10) + [Digit(n % 10)]
  }

  function Digit(d: nat): char
    requires d < 10
  {
    '0' + d as char
  }

  function ParseUint(s: string): int {
    if s == "" then 0 else 10 * ParseUint(s[..|s| - 1]) + (s[|s| - 1] as int - '0' as int)
  }

  /** Different counter values give different tokens. */
  lemma {:induction false} FormatUintRoundTrip(n: nat)
    ensures ParseUint(FormatUint(n)) == n
  {
    if n >= 10 {
      FormatUintRoundTrip(n / 10);
      var s := FormatUint(n);
      assert s[..|s| - 1] == FormatUint(n / 10);
    } else {
      assert [Digit(n)][..0] == "";
    }
  }
}

/** Every interleaving of MapOf's steps refines a plain map: the abstract map only
    changes when an operation takes effect, and every result is one that a plain
    map would have given at some moment of the call. */
module MapRefinement {
  import opened Wrappers
  import opened ConcurrentMap

  /*** the shared fields ***/

  /** Entry e speaks for key k. */
  predicate Live(s: Shared, k: Key, e: nat) {
    Current(s, k) == Some(e)
  }

  /** Entry e was made for key k. */
  predicate Owned(s: Shared, k: Key, e: nat) {
    e in s.heap && s.heap[e].key == k
  }

  /** The keys of read whose entries dirtyLocked has yet to look at. */
  function Pending(s: Shared): set<Key> {
    if s.building.Some? then s.building.value else {}
  }

  /** An entry of read is in dirty exactly when it is not expunged. */
  predicate ReadOk(s: Shared, k: Key) {
    k in s.read ==>
      && Owned(s, k, s.read[k])
      && (s.dirty.None? ==> At(s, s.read[k]) != Expunged)
      && (s.dirty.Some? && k in Pending(s) ==> k !in s.dirty.value)
      && (s.dirty.Some? && k !in Pending(s) ==>
            if At(s, s.read[k]).Expunged? then k !in s.dirty.value
            else k in s.dirty.value && s.dirty.value[k] == s.read[k])
  }

  predicate DirtyOk(s: Shared, k: Key) {
    s.dirty.Some? && k in s.dirty.value ==>
      && Owned(s, k, s.dirty.value[k])
      && At(s, s.dirty.value[k]) != Expunged
      && (k in s.read ==> s.dirty.value[k] == s.read[k])
      && (!s.amended ==> k in s.read)
  }

  ghost predicate SharedOk(s: Shared) {
    && (forall k :: ReadOk(s, k))
    && (forall k :: DirtyOk(s, k))
    && (s.amended ==> s.dirty.Some?)
    && (!s.amended ==> s.misses == 0)
    && (s.dirty.Some? && !s.amended <==> s.building.Some?)
    && (s.building.Some? ==> s.building.value <= s.read.Keys && s.mu.Some?)
  }

  /** An entry taken from read is still there, unless it has been expunged for good. */
  predicate FromRead(s: Shared, k: Key, e: nat) {
    At(s, e) == Expunged || (k in s.read && s.read[k] == e)
  }

  /** How one goroutine's step may change an entry another one has in hand: once an
      entry stops speaking for its key it never does so again and is never written. */
  predicate EntryEvolves(s: Shared, s': Shared, e: nat) {
    e in s.heap ==>
      && Owned(s', s.heap[e].key, e)
      && (!Live(s, s.heap[e].key, e) ==> !Live(s', s.heap[e].key, e))
      && (!Live(s, s.heap[e].key, e) || !Live(s', s.heap[e].key, e) ==> At(s', e) == At(s, e))
      && (FromRead(s, s.heap[e].key, e) ==> FromRead(s', s.heap[e].key, e))
  }

  ghost predicate Evolves(s: Shared, s': Shared) {
    forall e :: EntryEvolves(s, s', e)
  }

  /** All that a goroutine without mu may do while another one holds it. */
  ghost predicate Quiet(s: Shared, s': Shared) {
    && s'.read == s.read && s'.amended == s.amended && s'.dirty == s.dirty && s'.building == s.building
    && s.heap.Keys <= s'.heap.Keys
    && forall e :: e in s.heap ==> (At(s', e) == Expunged <==> At(s, e) == Expunged)
  }

  lemma AbsIsLookup(s: Shared, k: Key)
    ensures Get(Abs(s), k) == Lookup(s, k)
  {
  }

  lemma SameMap(a: AbsMap, b: AbsMap)
    requires forall k :: Get(a, k) == Get(b, k)
    ensures a == b
  {
    forall k ensures k in a <==> k in b {
      assert Get(a, k) == Get(b, k);
    }
    forall k | k in a ensures a[k] == b[k] {
      assert Get(a, k) == Get(b, k);
    }
  }

  /** A live entry that is not expunged is overwritten. */
  lemma PtrSet(s: Shared, k: Key, e: nat, p: Ptr)
    requires SharedOk(s) && Live(s, k, e) && Owned(s, k, e) && At(s, e) != Expunged && p != Expunged
    ensures var s' := SetPtr(s, e, p);
      && SharedOk(s') && Evolves(s, s') && Quiet(s, s')
      && Abs(s') == (if p.To? then Abs(s)[k := p.v] else Abs(s) - {k})
  {
    var s' := SetPtr(s, e, p);
    forall j ensures ReadOk(s', j) {
      assert ReadOk(s, j);
    }
    forall j ensures DirtyOk(s', j) {
      assert DirtyOk(s, j);
    }
    var m := if p.To? then Abs(s)[k := p.v] else Abs(s) - {k};
    forall j ensures Get(Abs(s'), j) == Get(m, j) {
      AbsIsLookup(s, j);
      AbsIsLookup(s', j);
      assert ReadOk(s, j) && DirtyOk(s, j);
    }
    SameMap(Abs(s'), m);
  }

  lemma AbsSame(s: Shared, s': Shared)
    requires forall k :: Lookup(s', k) == Lookup(s, k)
    ensures Abs(s') == Abs(s)
  {
    forall k ensures Get(Abs(s'), k) == Get(Abs(s), k) {
      AbsIsLookup(s, k);
      AbsIsLookup(s', k);
    }
    SameMap(Abs(s'), Abs(s));
  }

  /** Promotion changes nothing a plain map could show. */
  lemma Promoted(s: Shared)
    requires SharedOk(s) && s.amended
    ensures var s' := Promote(s);
      SharedOk(s') && Evolves(s, s') && Abs(s') == Abs(s)
  {
    var s' := Promote(s);
    forall k ensures ReadOk(s', k) && DirtyOk(s', k) {
      assert DirtyOk(s, k);
    }
    forall e ensures EntryEvolves(s, s', e) {
      if e in s.heap {
        assert ReadOk(s, s.heap[e].key) && DirtyOk(s, s.heap[e].key);
      }
    }
    forall k ensures Lookup(s', k) == Lookup(s, k) {
      assert ReadOk(s, k) && DirtyOk(s, k);
    }
    AbsSame(s, s');
  }

  lemma Missed(s: Shared)
    requires SharedOk(s) && s.amended
    ensures SharedOk(Miss(s)) && Evolves(s, Miss(s)) && Abs(Miss(s)) == Abs(s)
  {
    Promoted(s);
    forall k ensures ReadOk(Miss(s), k) && DirtyOk(Miss(s), k) {
      assert ReadOk(s, k) && DirtyOk(s, k);
    }
    forall k ensures Lookup(Miss(s), k) == Lookup(s, k) {
      AbsIsLookup(s, k);
      AbsIsLookup(Miss(s), k);
    }
    AbsSame(s, Miss(s));
    forall e ensures EntryEvolves(s, Miss(s), e) {
      assert EntryEvolves(s, Promote(s), e);
    }
  }

  /** Deleting from dirty a key that read does not have. */
  lemma DirtyDeleted(s: Shared, k: Key)
    requires SharedOk(s) && s.amended && k !in s.read
    ensures var s' := s.(dirty := Some(s.dirty.value - {k}));
      SharedOk(s') && Evolves(s, s') && Abs(s') == Abs(s) - {k}
  {
    var s' := s.(dirty := Some(s.dirty.value - {k}));
    forall j ensures ReadOk(s', j) && DirtyOk(s', j) {
      assert ReadOk(s, j) && DirtyOk(s, j);
    }
    forall e ensures EntryEvolves(s, s', e) {
    }
    forall j ensures Get(Abs(s'), j) == Get(Abs(s) - {k}, j) {
      AbsIsLookup(s, j);
      AbsIsLookup(s', j);
    }
    SameMap(Abs(s'), Abs(s) - {k});
  }

  /** An expunged entry of read becomes nil and goes back into dirty. */
  lemma Unexpunged(s: Shared, k: Key)
    requires SharedOk(s) && s.building.None? && k in s.read && At(s, s.read[k]) == Expunged
    ensures var s' := Unexpunge(s, k, s.read[k]);
      SharedOk(s') && Evolves(s, s') && Abs(s') == Abs(s)
  {
    var s' := Unexpunge(s, k, s.read[k]);
    assert ReadOk(s, k);
    forall j ensures ReadOk(s', j) && DirtyOk(s', j) {
      assert ReadOk(s, j) && DirtyOk(s, j);
    }
    forall e ensures EntryEvolves(s, s', e) {
      if e in s.heap {
        assert ReadOk(s, s.heap[e].key);
      }
    }
    forall j ensures Lookup(s', j) == Lookup(s, j) {
      assert ReadOk(s, j) && DirtyOk(s, j);
    }
    AbsSame(s, s');
  }

  lemma BuildStarted(s: Shared)
    requires SharedOk(s) && s.dirty.None? && s.mu.Some?
    ensures var s' := s.(dirty := Some(map[]), building := Some(s.read.Keys));
      SharedOk(s') && Evolves(s, s') && Abs(s') == Abs(s)
  {
    var s' := s.(dirty := Some(map[]), building := Some(s.read.Keys));
    forall k ensures ReadOk(s', k) && DirtyOk(s', k) {
      assert ReadOk(s, k);
    }
    forall e ensures EntryEvolves(s, s', e) {
    }
    AbsSame(s, s');
  }

  lemma Built(s: Shared, c: Choice)
    requires SharedOk(s) && BuildEnabled(s, c)
    ensures var s' := StepBuild(s, c).0;
      SharedOk(s') && Evolves(s, s') && Abs(s') == Abs(s)
  {
    var s' := StepBuild(s, c).0;
    if s.building.value != {} {
      assert ReadOk(s, c.k) && DirtyOk(s, c.k);
    }
    forall k ensures ReadOk(s', k) {
      assert ReadOk(s, k) && DirtyOk(s, k);
    }
    forall k ensures DirtyOk(s', k) {
      assert ReadOk(s, k) && DirtyOk(s, k);
    }
    forall e ensures EntryEvolves(s, s', e) {
      if e in s.heap {
        assert ReadOk(s, s.heap[e].key) && DirtyOk(s, s.heap[e].key);
      }
    }
    forall k ensures Lookup(s', k) == Lookup(s, k) {
      assert ReadOk(s, k) && DirtyOk(s, k);
    }
    AbsSame(s, s');
  }

  lemma Inserted(s: Shared, op: Op, e: nat)
    requires SharedOk(s) && Writes(op) && s.amended && e !in s.heap
    requires op.key !in s.read && op.key !in s.dirty.value
    ensures var s' := StepInsert(s, op, e).0;
      SharedOk(s') && Evolves(s, s') && Abs(s') == Abs(s)[op.key := op.value] && op.key !in Abs(s)
  {
    var s' := StepInsert(s, op, e).0;
    forall k ensures ReadOk(s', k) && DirtyOk(s', k) {
      assert ReadOk(s, k) && DirtyOk(s, k);
    }
    forall x ensures EntryEvolves(s, s', x) {
    }
    forall k ensures Get(Abs(s'), k) == Get(Abs(s)[op.key := op.value], k) {
      AbsIsLookup(s, k);
      AbsIsLookup(s', k);
      assert ReadOk(s, k) && DirtyOk(s, k);
    }
    SameMap(Abs(s'), Abs(s)[op.key := op.value]);
  }

  /*** goroutines ***/

  /** The operation has witnessed a map in which k's value was r. */
  predicate Saw(seen: set<AbsMap>, k: Key, r: Option<Value>) {
    exists m :: m in seen && Get(m, k) == r
  }

  /** What an entry in hand is good for: it speaks for its key, or its content did
      at some moment of the call. */
  predicate Good(s: Shared, seen: set<AbsMap>, k: Key, e: nat) {
    Owned(s, k, e) && (Live(s, k, e) || Saw(seen, k, Deref(At(s, e))))
  }

  predicate IterOk(s: Shared, seen: set<AbsMap>, pc: Pc, k: Key)
    requires pc.Iter?
  {
    && (k in pc.todo ==> k in pc.m && Good(s, seen, k, pc.m[k]))
    && (k !in pc.todo ==> Saw(seen, k, Get(pc.visited, k)))
    && (k in pc.visited ==> k !in pc.todo)
  }

  /** A result that a plain map would have given at some moment of the call. */
  ghost predicate Justified(op: Op, r: Result, seen: set<AbsMap>) {
    match op
    case Load(k) => r.Loaded? && Saw(seen, k, r.found)
    case Store(k, v) => r.Stored? && Saw(seen, k, Some(v))
    case LoadOrStore(k, v) =>
      && r.LoadedOrStored? && r.actual.Some? && Saw(seen, k, r.actual)
      && (!r.loaded ==> r.actual == Some(v) && Saw(seen, k, None))
    case Delete(k) => r.Deleted? && Saw(seen, k, None)
    case Range =>
      && r.Ranged?
      && (forall k :: k in r.visited ==> Saw(seen, k, Some(r.visited[k])))
      && (r.complete ==> forall k :: Saw(seen, k, Get(r.visited, k)))
  }

  /** What holds of a goroutine inside op at pc. */
  ghost predicate PcOk(s: Shared, op: Op, pc: Pc, seen: set<AbsMap>) {
    match pc
    case AtEntry(e) => !op.Range? && Good(s, seen, op.key, e) && (!op.Load? ==> FromRead(s, op.key, e))
    case InLock => s.building.None?
    case Put(e, miss) =>
      && Writes(op) && Owned(s, op.key, e) && Live(s, op.key, e) && At(s, e) != Expunged && s.building.None?
      && (miss ==> s.amended)
      && (miss <==> op.LoadOrStore? && op.key !in s.read)
    case Building => Writes(op) && s.building.Some? && op.key !in s.read
    case Insert => Writes(op) && s.amended && s.dirty.Some? && op.key !in s.read && op.key !in s.dirty.value
    case Iter(m, todo, visited) => op.Range? && forall k :: IterOk(s, seen, pc, k)
    case Done(r) => Justified(op, r, seen)
    case _ => true
  }

  ghost predicate ThreadOk(s: State, t: nat) {
    t in s.threads && s.threads[t].Busy? ==>
      && Abs(s.sh) in s.threads[t].seen
      && (HoldsLock(s.threads[t].pc) <==> s.sh.mu == Some(t))
      && PcOk(s.sh, s.threads[t].op, s.threads[t].pc, s.threads[t].seen)
  }

  ghost predicate MuOk(s: State) {
    s.sh.mu.Some? ==> s.sh.mu.value in s.threads && s.threads[s.sh.mu.value].Busy?
  }

  ghost predicate Inv(s: State) {
    SharedOk(s.sh) && MuOk(s) && forall t :: ThreadOk(s, t)
  }

  /*** what other goroutines rely on ***/

  lemma GoodKept(s: Shared, s': Shared, seen: set<AbsMap>, seen': set<AbsMap>, k: Key, e: nat)
    requires Good(s, seen, k, e) && EntryEvolves(s, s', e) && Abs(s) in seen && seen <= seen'
    ensures Good(s', seen', k, e)
  {
    AbsIsLookup(s, k);
  }

  lemma SawKept(seen: set<AbsMap>, seen': set<AbsMap>)
    requires seen <= seen'
    ensures forall k, r :: Saw(seen, k, r) ==> Saw(seen', k, r)
  {
  }

  lemma OtherPcOk(s: Shared, s': Shared, op: Op, pc: Pc, seen: set<AbsMap>, seen': set<AbsMap>)
    requires PcOk(s, op, pc, seen) && Abs(s) in seen && seen <= seen'
    requires Evolves(s, s') && (HoldsLock(pc) ==> Quiet(s, s'))
    ensures PcOk(s', op, pc, seen')
  {
    SawKept(seen, seen');
    match pc
    case AtEntry(e) =>
      assert EntryEvolves(s, s', e);
      GoodKept(s, s', seen, seen', op.key, e);
    case Put(e, _) =>
      assert EntryEvolves(s, s', e);
    case Iter(m, todo, visited) =>
      forall k ensures IterOk(s', seen', pc, k) {
        assert IterOk(s, seen, pc, k);
        if k in todo {
          assert EntryEvolves(s, s', m[k]);
          GoodKept(s, s', seen, seen', k, m[k]);
        }
      }
    case _ =>
  }

  /** mu changes hands only between "free" and t. */
  predicate MuBy(t: nat, s: Shared, s': Shared) {
    s'.mu == s.mu || (s.mu == Some(t) && s'.mu.None?) || (s.mu.None? && s'.mu == Some(t))
  }

  /** A step of t leaves every other goroutine's claims intact. */
  lemma OthersOk(s: State, t: nat, sh: Shared, th: Thread, s': State)
    requires Inv(s) && t in s.threads && Evolves(s.sh, sh) && MuBy(t, s.sh, sh)
    requires s.sh.mu.Some? && s.sh.mu != Some(t) ==> Quiet(s.sh, sh)
    requires sh.mu == Some(t) ==> th.Busy?
    requires s' == Witness(sh, s.threads[t := th])
    ensures forall u :: u != t ==> ThreadOk(s', u)
    ensures MuOk(s')
  {
    forall u | u != t ensures ThreadOk(s', u) {
      assert ThreadOk(s, u);
      if u in s.threads && s.threads[u].Busy? {
        var b := s.threads[u];
        OtherPcOk(s.sh, sh, b.op, b.pc, b.seen, s'.threads[u].seen);
      }
    }
  }

  /*** one goroutine's step ***/

  /** What a step of op that leads to pc does to the abstract map: nothing, unless it
      completes a write, and then exactly that write. */
  predicate Effect(op: Op, pc: Pc, seen: set<AbsMap>, a: AbsMap, a': AbsMap) {
    if !pc.Done? then a' == a
    else match op
      case Store(k, v) => a' == a[k := v]
      case LoadOrStore(k, v) =>
        && pc.r.LoadedOrStored?
        && if pc.r.loaded then a' == a && Get(a, k) == pc.r.actual else k !in a && a' == a[k := v]
      case Delete(k) => a' == a - {k} || (a' == a && Saw(seen, k, None))
      case _ => a' == a
  }

  /** Everything a step of op from pc to pc' promises. */
  ghost predicate StepOk(s: Shared, s': Shared, t: nat, op: Op, pc: Pc, pc': Pc, seen: set<AbsMap>) {
    && SharedOk(s') && Evolves(s, s') && MuBy(t, s, s')
    && (s.mu.Some? && s.mu != Some(t) ==> Quiet(s, s'))
    && (HoldsLock(pc') <==> s'.mu == Some(t))
    && PcOk(s', op, pc', seen + {Abs(s')})
    && Effect(op, pc', seen, Abs(s), Abs(s'))
  }

  ghost predicate Ready(s: Shared, t: nat, op: Op, pc: Pc, seen: set<AbsMap>) {
    SharedOk(s) && PcOk(s, op, pc, seen) && Abs(s) in seen && (HoldsLock(pc) <==> s.mu == Some(t))
  }

  lemma EvolvesSelf(s: Shared)
    requires SharedOk(s)
    ensures Evolves(s, s) && Quiet(s, s)
  {
  }

  /** Locking or unlocking mu touches nothing else. */
  lemma MuMoved(s: Shared, mu: Option<nat>)
    requires SharedOk(s) && (s.building.Some? ==> mu.Some?)
    ensures SharedOk(s.(mu := mu)) && Abs(s.(mu := mu)) == Abs(s) && Evolves(s, s.(mu := mu)) && Quiet(s, s.(mu := mu))
  {
    var s' := s.(mu := mu);
    forall k ensures ReadOk(s', k) && DirtyOk(s', k) && Lookup(s', k) == Lookup(s, k) {
      assert ReadOk(s, k) && DirtyOk(s, k);
    }
    AbsSame(s, s');
  }

  lemma EvolvesTrans(s: Shared, s1: Shared, s2: Shared)
    requires Evolves(s, s1) && Evolves(s1, s2)
    requires s1.heap == s.heap
    ensures Evolves(s, s2)
  {
    forall e ensures EntryEvolves(s, s2, e) {
      assert EntryEvolves(s, s1, e) && EntryEvolves(s1, s2, e);
    }
  }

  /** missLocked and the unlock after it. */
  lemma MissUnlocked(s: Shared)
    requires SharedOk(s) && s.amended
    ensures var s1 := Unlock(Miss(s));
      && SharedOk(s1) && Evolves(s, s1) && Abs(s1) == Abs(s) && s1.heap == s.heap
      && forall k, e :: k !in s.read && Live(s, k, e) ==> Live(s1, k, e)
  {
    Missed(s);
    MuMoved(Miss(s), None);
    EvolvesTrans(s, Miss(s), Unlock(Miss(s)));
  }

  lemma StartOk(s: Shared, t: nat, op: Op, seen: set<AbsMap>)
    requires Ready(s, t, op, Start, seen)
    ensures StepOk(s, s, t, op, Start, StepStart(s, op), seen)
  {
    EvolvesSelf(s);
    if op.Range? {
      if !s.amended {
        FreshIterOk(s, seen + {Abs(s)}, s.read);
      }
    } else {
      assert ReadOk(s, op.key);
      AbsIsLookup(s, op.key);
    }
  }

  /** A snapshot of a complete read map is a good thing to iterate over. */
  lemma FreshIterOk(s: Shared, seen: set<AbsMap>, m: map<Key, nat>)
    requires SharedOk(s) && !s.amended && m == s.read && Abs(s) in seen
    ensures forall k :: IterOk(s, seen, Iter(m, m.Keys, map[]), k)
  {
    forall k ensures IterOk(s, seen, Iter(m, m.Keys, map[]), k) {
      assert ReadOk(s, k);
      AbsIsLookup(s, k);
    }
  }

  lemma EntryOk(s: Shared, t: nat, op: Op, e: nat, seen: set<AbsMap>)
    requires Ready(s, t, op, AtEntry(e), seen) && e in s.heap
    ensures var (s', pc') := StepEntry(s, op, e);
      StepOk(s, s', t, op, AtEntry(e), pc', seen)
  {
    var (s', pc') := StepEntry(s, op, e);
    EvolvesSelf(s);
    AbsIsLookup(s, op.key);
    SawKept(seen, seen + {Abs(s')});
    assert Live(s, op.key, e) ==> Get(Abs(s), op.key) == Deref(At(s, e));
    if s' != s {
      PtrSet(s, op.key, e, s'.heap[e].p);
      assert s' == SetPtr(s, e, s'.heap[e].p);
      AbsIsLookup(s', op.key);
    }
  }

  lemma LockedLoadOk(s: Shared, t: nat, op: Op, seen: set<AbsMap>)
    requires Ready(s, t, op, InLock, seen) && op.Load?
    ensures var (s', pc') := StepRead(s, op);
      StepOk(s, s', t, op, InLock, pc', seen)
  {
    MuMoved(s, None);
    assert ReadOk(s, op.key) && DirtyOk(s, op.key);
    AbsIsLookup(s, op.key);
    if op.key !in s.read && s.amended {
      MissUnlocked(s);
    }
  }

  lemma LockedDeleteOk(s: Shared, t: nat, op: Op, seen: set<AbsMap>)
    requires Ready(s, t, op, InLock, seen) && op.Delete?
    ensures var (s', pc') := StepRead(s, op);
      StepOk(s, s', t, op, InLock, pc', seen)
  {
    var s' := StepRead(s, op).0;
    MuMoved(s, None);
    assert ReadOk(s, op.key);
    AbsIsLookup(s, op.key);
    AbsIsLookup(s', op.key);
    if op.key !in s.read && s.amended {
      var s1 := s.(dirty := Some(s.dirty.value - {op.key}));
      DirtyDeleted(s, op.key);
      MuMoved(s1, None);
      EvolvesTrans(s, s1, s');
    }
  }

  lemma LockedRangeOk(s: Shared, t: nat, op: Op, seen: set<AbsMap>)
    requires Ready(s, t, op, InLock, seen) && op.Range?
    ensures var (s', pc') := StepRead(s, op);
      StepOk(s, s', t, op, InLock, pc', seen)
  {
    var s' := StepRead(s, op).0;
    MuMoved(s, None);
    if s.amended {
      Promoted(s);
      MuMoved(Promote(s), None);
      EvolvesTrans(s, Promote(s), s');
    }
    FreshIterOk(s', seen + {Abs(s')}, s'.read);
  }

  lemma WriteStepOk(s: Shared, t: nat, op: Op, seen: set<AbsMap>)
    requires Ready(s, t, op, InLock, seen) && Writes(op) && (op.key in s.read ==> s.read[op.key] in s.heap)
    ensures var (s', pc') := StepWrite(s, op);
      StepOk(s, s', t, op, InLock, pc', seen)
  {
    EvolvesSelf(s);
    assert ReadOk(s, op.key) && DirtyOk(s, op.key);
    if op.key in s.read {
      if At(s, s.read[op.key]).Expunged? {
        Unexpunged(s, op.key);
      }
    } else if s.dirty.None? {
      BuildStarted(s);
    }
  }

  lemma PutOk(s: Shared, t: nat, op: Op, e: nat, miss: bool, seen: set<AbsMap>)
    requires Ready(s, t, op, Put(e, miss), seen) && (miss ==> s.dirty.Some?)
    ensures var (s', pc') := StepPut(s, op, e, miss);
      StepOk(s, s', t, op, Put(e, miss), pc', seen)
  {
    var (s', pc') := StepPut(s, op, e, miss);
    var s1 := Unlock(if miss then Miss(s) else s);
    if miss {
      MissUnlocked(s);
    } else {
      MuMoved(s, None);
    }
    AbsIsLookup(s, op.key);
    AbsIsLookup(s', op.key);
    if s' != s1 {
      PtrSet(s1, op.key, e, To(op.value));
      EvolvesTrans(s, s1, s');
    }
  }

  lemma BuildOk(s: Shared, t: nat, op: Op, c: Choice, seen: set<AbsMap>)
    requires Ready(s, t, op, Building, seen) && BuildEnabled(s, c)
    ensures var (s', pc') := StepBuild(s, c);
      StepOk(s, s', t, op, Building, pc', seen)
  {
    Built(s, c);
    assert DirtyOk(s, op.key);
  }

  lemma InsertOk(s: Shared, t: nat, op: Op, e: nat, seen: set<AbsMap>)
    requires Ready(s, t, op, Insert, seen) && e !in s.heap
    ensures var (s', pc') := StepInsert(s, op, e);
      StepOk(s, s', t, op, Insert, pc', seen)
  {
    var (s', pc') := StepInsert(s, op, e);
    Inserted(s, op, e);
    AbsIsLookup(s, op.key);
    AbsIsLookup(s', op.key);
    assert Saw(seen + {Abs(s')}, op.key, Some(op.value));
    assert Get(Abs(s), op.key) == None;
  }

  lemma IterStepOk(s: Shared, t: nat, op: Op, pc: Pc, c: Choice, seen: set<AbsMap>)
    requires Ready(s, t, op, pc, seen) && IterEnabled(s, pc, c)
    ensures StepOk(s, s, t, op, pc, StepIter(s, pc, c), seen)
  {
    EvolvesSelf(s);
    var pc' := StepIter(s, pc, c);
    var seen' := seen + {Abs(s)};
    SawKept(seen, seen');
    if pc'.Done? {
      forall k | k in pc.visited ensures Saw(seen', k, Some(pc.visited[k])) {
        assert IterOk(s, seen, pc, k);
      }
      if pc.todo == {} {
        forall k ensures Saw(seen', k, Get(pc.visited, k)) {
          assert IterOk(s, seen, pc, k);
        }
      }
    } else {
      AbsIsLookup(s, c.k);
      forall k ensures IterOk(s, seen', pc', k) {
        assert IterOk(s, seen, pc, k);
      }
    }
  }

  lemma OpStepOk(s: Shared, t: nat, op: Op, pc: Pc, c: Choice, seen: set<AbsMap>)
    requires Ready(s, t, op, pc, seen) && OpEnabled(s, op, pc, c)
    ensures var (s', pc') := OpStep(s, t, op, pc, c);
      StepOk(s, s', t, op, pc, pc', seen)
  {
    match pc
    case Start => StartOk(s, t, op, seen);
    case AtEntry(e) => EntryOk(s, t, op, e, seen);
    case WantLock =>
      MuMoved(s, Some(t));
    case InLock =>
      if Writes(op) {
        WriteStepOk(s, t, op, seen);
      } else {
        match op
        case Load(_) => LockedLoadOk(s, t, op, seen);
        case Delete(_) => LockedDeleteOk(s, t, op, seen);
        case Range => LockedRangeOk(s, t, op, seen);
      }
    case Put(e, miss) => PutOk(s, t, op, e, miss, seen);
    case Building => BuildOk(s, t, op, c, seen);
    case Insert => InsertOk(s, t, op, c.e, seen);
    case Iter(_, _, _) => IterStepOk(s, t, op, pc, c, seen);
  }

  /*** all goroutines ***/

  lemma InitOk(s: State)
    requires Init(s)
    ensures Inv(s) && Abs(s.sh) == map[]
  {
  }

  /** The invariant survives every step of every goroutine. */
  lemma StepKeeps(s: State, t: nat, c: Choice)
    requires Inv(s) && Enabled(s, t, c)
    ensures Inv(Step(s, t, c))
  {
    var s' := Step(s, t, c);
    EvolvesSelf(s.sh);
    assert ThreadOk(s, t);
    match s.threads[t]
    case Idle => OthersOk(s, t, s.sh, Busy(c.op, Start, {}), s');
    case Busy(op, pc, seen) =>
      if pc.Done? {
        OthersOk(s, t, s.sh, Idle, s');
      } else {
        var (sh, pc') := OpStep(s.sh, t, op, pc, c);
        OpStepOk(s.sh, t, op, pc, c, seen);
        OthersOk(s, t, sh, Busy(op, pc', seen), s');
      }
    forall u ensures ThreadOk(s', u) {
    }
  }

  /** A schedule of steps, each goroutine and choice in turn, takes s to s'. */
  ghost predicate Runs(s: State, steps: seq<(nat, Choice)>, s': State)
    decreases |steps|
  {
    if steps == [] then s' == s
    else Enabled(s, steps[0].0, steps[0].1) && Runs(Step(s, steps[0].0, steps[0].1), steps[1..], s')
  }

  lemma {:induction false} RunsKeep(s: State, steps: seq<(nat, Choice)>, s': State)
    requires Inv(s) && Runs(s, steps, s')
    ensures Inv(s')
    decreases |steps|
  {
    if steps != [] {
      StepKeeps(s, steps[0].0, steps[0].1);
      RunsKeep(Step(s, steps[0].0, steps[0].1), steps[1..], s');
    }
  }

  /** The abstract map changes only in the one step that completes a write, and then
      as that write says, whatever the other goroutines are in the middle of. */
  lemma StepRefines(s: State, t: nat, c: Choice)
    requires Inv(s) && Enabled(s, t, c)
    ensures var s' := Step(s, t, c);
      var th, th' := s.threads[t], s'.threads[t];
      if th.Busy? && !th.pc.Done? then th'.Busy? && Effect(th.op, th'.pc, th.seen, Abs(s.sh), Abs(s'.sh))
      else Abs(s'.sh) == Abs(s.sh)
  {
    assert ThreadOk(s, t);
    if s.threads[t].Busy? && !s.threads[t].pc.Done? {
      OpStepOk(s.sh, t, s.threads[t].op, s.threads[t].pc, c, s.threads[t].seen);
    }
  }

  /** Whatever an operation is about to return is what a plain map would have given
      at some moment between its call and its return. */
  lemma ResultsJustified(s0: State, steps: seq<(nat, Choice)>, s: State, t: nat)
    requires Init(s0) && Runs(s0, steps, s)
    requires t in s.threads && s.threads[t].Busy? && s.threads[t].pc.Done?
    ensures Justified(s.threads[t].op, s.threads[t].pc.r, s.threads[t].seen)
  {
    InitOk(s0);
    RunsKeep(s0, steps, s);
    assert ThreadOk(s, t);
  }

  /** seen holds nothing but abstract maps that existed during the call: it starts
      with the map at the call and grows by the map after each step. */
  lemma SeenIsHistory(s: State, t: nat, c: Choice, u: nat)
    requires Enabled(s, t, c) && u in s.threads
    ensures var s' := Step(s, t, c);
      u in s'.threads &&
      var before := if s.threads[u].Busy? then s.threads[u].seen else {};
      (s'.threads[u].Busy? ==> s'.threads[u].seen == before + {Abs(s'.sh)})
  {
  }

  lemma StepEvolves(s: State, t: nat, c: Choice)
    requires Inv(s) && Enabled(s, t, c)
    ensures Evolves(s.sh, Step(s, t, c).sh)
  {
    assert ThreadOk(s, t);
    EvolvesSelf(s.sh);
    if s.threads[t].Busy? && !s.threads[t].pc.Done? {
      OpStepOk(s.sh, t, s.threads[t].op, s.threads[t].pc, c, s.threads[t].seen);
    }
  }

  lemma {:induction false} FromReadKept(s: State, steps: seq<(nat, Choice)>, s': State, k: Key, e: nat)
    requires Inv(s) && Runs(s, steps, s') && Owned(s.sh, k, e) && FromRead(s.sh, k, e)
    ensures Owned(s'.sh, k, e) && FromRead(s'.sh, k, e)
    decreases |steps|
  {
    if steps != [] {
      var (t, c) := steps[0];
      StepKeeps(s, t, c);
      StepEvolves(s, t, c);
      assert EntryEvolves(s.sh, Step(s, t, c).sh, e);
      FromReadKept(Step(s, t, c), steps[1..], s', k, e);
    }
  }

  /** An entry that was in read for k in some state of a run is expunged or still k's in
      every later one: a value swapped into an entry that is not expunged is never lost. */
  lemma EntrySeenStaysLive(s0: State, before: seq<(nat, Choice)>, s: State, after: seq<(nat, Choice)>, s': State,
                           k: Key)
    requires Init(s0) && Runs(s0, before, s) && Runs(s, after, s') && k in s.sh.read
    ensures At(s'.sh, s.sh.read[k]) == Expunged || Live(s'.sh, k, s.sh.read[k])
  {
    InitOk(s0);
    RunsKeep(s0, before, s);
    assert ReadOk(s.sh, k);
    FromReadKept(s, after, s', k, s.sh.read[k]);
  }

  /** Every goroutine that is not waiting for mu can go on, a Range without its callback giving
      up: no operation of the protocol is ever stuck on its data. */
  lemma NeverStuck(s: State, t: nat, e: nat)
    requires Inv(s) && t in s.threads && s.threads[t].Busy? && !s.threads[t].pc.WantLock? && e !in s.sh.heap
    ensures exists c :: c != Stop && Enabled(s, t, c)
  {
    assert ThreadOk(s, t);
    var th := s.threads[t];
    assert !th.op.Range? ==> ReadOk(s.sh, th.op.key);
    match th.pc
    case Insert => assert Enabled(s, t, Fresh(e));
    case Building =>
      if s.sh.building.value == {} {
        assert Enabled(s, t, Go);
      } else {
        var k :| k in s.sh.building.value;
        assert ReadOk(s.sh, k);
        assert Enabled(s, t, Pick(k));
      }
    case Iter(_, todo, _) =>
      if todo == {} {
        assert Enabled(s, t, Go);
      } else {
        var k :| k in todo;
        assert IterOk(s.sh, th.seen, th.pc, k);
        assert Enabled(s, t, Pick(k));
      }
    case WantLock =>
    case Start => assert Enabled(s, t, Go);
    case AtEntry(_) => assert Enabled(s, t, Go);
    case InLock => assert Enabled(s, t, Go);
    case Put(_, _) => assert Enabled(s, t, Go);
    case Done(_) => assert Enabled(s, t, Go);
  }
}

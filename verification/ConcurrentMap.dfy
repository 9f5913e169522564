/** The concurrent map MapOf as a transition system: every atomic load, store and
    compare-and-swap, and every stretch of mutex-protected code between them, is a
    step, and the steps of any number of goroutines interleave freely. */
module ConcurrentMap {
  import opened Wrappers

  type Key(==, !new)
  type Value(==, !new)

  /** An entry's pointer. */
  datatype Ptr = Nil | Expunged | To(v: Value)

  /** An entry; key is the key it was created for, which no step looks at. */
  datatype Entry = Entry(key: Key, p: Ptr)

  datatype Op =
    | Load(key: Key)
    | Store(key: Key, value: Value)
    | LoadOrStore(key: Key, value: Value)
    | Delete(key: Key)
    | Range

  /** complete: the callback never stopped the iteration. */
  datatype Result =
    | Loaded(found: Option<Value>)
    | Stored
    | LoadedOrStored(actual: Option<Value>, loaded: bool)
    | Deleted
    | Ranged(visited: map<Key, Value>, complete: bool)

  /** Where a goroutine is inside an operation. */
  datatype Pc =
    | Start                       // about to load read
    | AtEntry(e: nat)             // has an entry in hand, about to access its pointer
    | WantLock                    // about to lock mu
    | InLock                      // holds mu, about to re-load read
    | Put(e: nat, miss: bool)     // holds mu, about to write the entry; miss: missLocked follows
    | Building                    // holds mu, inside dirtyLocked
    | Insert                      // holds mu, about to add a new entry to dirty
    | Iter(m: map<Key, nat>, todo: set<Key>, visited: map<Key, Value>)
    | Done(r: Result)

  type AbsMap = map<Key, Value>

  /** seen collects the abstract maps that existed since the operation was called. */
  datatype Thread = Idle | Busy(op: Op, pc: Pc, seen: set<AbsMap>)

  /** The map's own fields, and the keys that a running dirtyLocked has yet to visit. */
  datatype Shared = Shared(
    heap: map<nat, Entry>,
    read: map<Key, nat>,
    amended: bool,
    dirty: Option<map<Key, nat>>,
    misses: nat,
    mu: Option<nat>,
    building: Option<set<Key>>)

  datatype State = State(sh: Shared, threads: map<nat, Thread>)

  /*** the map a state stands for ***/

  /** The entry that currently speaks for k. */
  function Current(s: Shared, k: Key): Option<nat> {
    if k in s.read then Some(s.read[k])
    else if s.amended && s.dirty.Some? && k in s.dirty.value then Some(s.dirty.value[k])
    else None
  }

  function Deref(p: Ptr): Option<Value> {
    if p.To? then Some(p.v) else None
  }

  function At(s: Shared, e: nat): Ptr {
    if e in s.heap then s.heap[e].p else Nil
  }

  function Lookup(s: Shared, k: Key): Option<Value> {
    match Current(s, k)
    case None => None
    case Some(e) => Deref(At(s, e))
  }

  function Get(m: AbsMap, k: Key): Option<Value> {
    if k in m then Some(m[k]) else None
  }

  function Keys(s: Shared): set<Key> {
    s.read.Keys + if s.dirty.Some? then s.dirty.value.Keys else {}
  }

  function Abs(s: Shared): AbsMap {
    map k | k in Keys(s) && Lookup(s, k).Some? :: Lookup(s, k).value
  }

  /*** steps ***/

  /** What the schedule or the allocator chooses: the goroutine's next operation, a
      key of a map iteration, the address of a new entry, or that Range's callback
      answers false. */
  datatype Choice = Call(op: Op) | Go | Pick(k: Key) | Fresh(e: nat) | Stop

  function SetPtr(s: Shared, e: nat, p: Ptr): Shared
    requires e in s.heap
  {
    s.(heap := s.heap[e := s.heap[e].(p := p)])
  }

  function Unlock(s: Shared): Shared {
    s.(mu := None)
  }

  /** missLocked: promote dirty once enough loads have missed. */
  function Miss(s: Shared): Shared
    requires s.dirty.Some?
  {
    if s.misses + 1 < |s.dirty.value| then s.(misses := s.misses + 1) else Promote(s)
  }

  function Promote(s: Shared): Shared
    requires s.dirty.Some?
  {
    s.(read := s.dirty.value, amended := false, dirty := None, misses := 0)
  }

  predicate HoldsLock(pc: Pc) {
    pc.InLock? || pc.Put? || pc.Building? || pc.Insert?
  }

  predicate Writes(op: Op) {
    op.Store? || op.LoadOrStore?
  }

  /** The operation loads read and looks its key up. */
  function StepStart(s: Shared, op: Op): Pc {
    if op.Range? then if s.amended then WantLock else Iter(s.read, s.read.Keys, map[])
    else if op.key in s.read then AtEntry(s.read[op.key])
    else if s.amended || Writes(op) then WantLock
    else Done(if op.Load? then Loaded(None) else Deleted)
  }

  /** The operation accesses the pointer of the entry it has in hand: a load, or the
      compare-and-swap that ends a retry loop. */
  function StepEntry(s: Shared, op: Op, e: nat): (Shared, Pc)
    requires e in s.heap && !op.Range?
  {
    var p := s.heap[e].p;
    match op
    case Load(k) => (s, Done(Loaded(Deref(p))))
    case Store(k, v) =>
      if p.Expunged? then (s, WantLock) else (SetPtr(s, e, To(v)), Done(Stored))
    case LoadOrStore(k, v) =>
      if p.Expunged? then (s, WantLock)
      else if p.To? then (s, Done(LoadedOrStored(Some(p.v), true)))
      else (SetPtr(s, e, To(v)), Done(LoadedOrStored(Some(v), false)))
    case Delete(k) =>
      if p.To? then (SetPtr(s, e, Nil), Done(Deleted)) else (s, Done(Deleted))
  }

  /** Load, Delete and Range finish what they need mu for in one go: nothing they
      touch there can be written by anyone else meanwhile. */
  function StepRead(s: Shared, op: Op): (Shared, Pc)
    requires !Writes(op) && (s.amended ==> s.dirty.Some?)
  {
    match op
    case Range =>
      if s.amended then (Unlock(Promote(s)), Iter(s.dirty.value, s.dirty.value.Keys, map[]))
      else (Unlock(s), Iter(s.read, s.read.Keys, map[]))
    case Load(k) =>
      if k in s.read then (Unlock(s), AtEntry(s.read[k]))
      else if s.amended then
        (Unlock(Miss(s)), if k in s.dirty.value then AtEntry(s.dirty.value[k]) else Done(Loaded(None)))
      else (Unlock(s), Done(Loaded(None)))
    case Delete(k) =>
      if k in s.read then (Unlock(s), AtEntry(s.read[k]))
      else if s.amended then (Unlock(s.(dirty := Some(s.dirty.value - {k}))), Done(Deleted))
      else (Unlock(s), Done(Deleted))
  }

  /** Store and LoadOrStore find or prepare the entry, keeping mu. */
  function StepWrite(s: Shared, op: Op): (Shared, Pc)
    requires Writes(op) && (op.key in s.read ==> s.read[op.key] in s.heap)
  {
    if op.key in s.read then
      var e := s.read[op.key];
      (if s.heap[e].p.Expunged? then Unexpunge(s, op.key, e) else s, Put(e, false))
    else if s.dirty.Some? && op.key in s.dirty.value then
      (s, Put(s.dirty.value[op.key], op.LoadOrStore?))
    else if s.amended then (s, Insert)
    else if s.dirty.Some? then (s.(amended := true), Insert)
    else (s.(dirty := Some(map[]), building := Some(s.read.Keys)), Building)
  }

  /** unexpungeLocked succeeds, and the entry is put back into dirty. */
  function Unexpunge(s: Shared, k: Key, e: nat): Shared
    requires e in s.heap
  {
    SetPtr(s, e, Nil).(dirty := Some((if s.dirty.Some? then s.dirty.value else map[])[k := e]))
  }

  /** Still holding mu, the operation writes the entry it found and unlocks. */
  function StepPut(s: Shared, op: Op, e: nat, miss: bool): (Shared, Pc)
    requires e in s.heap && Writes(op) && (miss ==> s.dirty.Some?)
  {
    var p := s.heap[e].p;
    var s1 := Unlock(if miss then Miss(s) else s);
    if op.Store? then (SetPtr(s1, e, To(op.value)), Done(Stored))
    else if p.To? then (s1, Done(LoadedOrStored(Some(p.v), true)))
    else if p.Expunged? then (s1, Done(LoadedOrStored(None, false)))
    else (SetPtr(s1, e, To(op.value)), Done(LoadedOrStored(Some(op.value), false)))
  }

  /** dirtyLocked: one entry is expunged or copied, or the copy is complete and read
      is marked as amended. */
  function StepBuild(s: Shared, c: Choice): (Shared, Pc)
    requires BuildEnabled(s, c)
  {
    if s.building.value == {} then (s.(amended := true, building := None), Insert)
    else
      var e := s.read[c.k];
      var s1 := s.(building := Some(s.building.value - {c.k}));
      match s.heap[e].p
      case Nil => (SetPtr(s1, e, Expunged), Building)
      case Expunged => (s1, Building)
      case To(_) => (s1.(dirty := Some(s.dirty.value[c.k := e])), Building)
  }

  predicate BuildEnabled(s: Shared, c: Choice) {
    && s.dirty.Some? && s.building.Some?
    && if s.building.value == {} then c.Go?
       else c.Pick? && c.k in s.building.value && c.k in s.read && s.read[c.k] in s.heap
  }

  /** A new entry is added to dirty. */
  function StepInsert(s: Shared, op: Op, e: nat): (Shared, Pc)
    requires s.dirty.Some? && Writes(op)
  {
    (Unlock(s.(heap := s.heap[e := Entry(op.key, To(op.value))], dirty := Some(s.dirty.value[op.key := e]))),
     Done(if op.Store? then Stored else LoadedOrStored(Some(op.value), false)))
  }

  predicate IterEnabled(s: Shared, pc: Pc, c: Choice) {
    && pc.Iter?
    && if pc.todo == {} then c.Go? else (c.Stop? && pc.visited != map[]) || PickEnabled(s, pc, c)
  }

  predicate PickEnabled(s: Shared, pc: Pc, c: Choice)
    requires pc.Iter?
  {
    c.Pick? && c.k in pc.todo && c.k in pc.m && pc.m[c.k] in s.heap
  }

  /** Range visits one key of its snapshot, or its callback stops it. */
  function StepIter(s: Shared, pc: Pc, c: Choice): Pc
    requires IterEnabled(s, pc, c)
  {
    if pc.todo == {} || c.Stop? then Done(Ranged(pc.visited, pc.todo == {}))
    else
      var d := Deref(s.heap[pc.m[c.k]].p);
      pc.(todo := pc.todo - {c.k}, visited := if d.Some? then pc.visited[c.k := d.value] else pc.visited)
  }

  /** A goroutine inside operation op, at pc, can take a step with this choice. */
  predicate OpEnabled(s: Shared, op: Op, pc: Pc, c: Choice) {
    match pc
    case Start => c.Go?
    case AtEntry(e) => c.Go? && e in s.heap && !op.Range?
    case WantLock => c.Go? && s.mu.None?
    case InLock =>
      && c.Go?
      && if Writes(op) then op.key in s.read ==> s.read[op.key] in s.heap else s.amended ==> s.dirty.Some?
    case Put(e, miss) => c.Go? && e in s.heap && Writes(op) && (miss ==> s.dirty.Some?)
    case Building => BuildEnabled(s, c)
    case Insert => c.Fresh? && c.e !in s.heap && s.dirty.Some? && Writes(op)
    case Iter(_, _, _) => IterEnabled(s, pc, c)
    case Done(_) => false
  }

  function OpStep(s: Shared, t: nat, op: Op, pc: Pc, c: Choice): (Shared, Pc)
    requires OpEnabled(s, op, pc, c)
  {
    match pc
    case Start => (s, StepStart(s, op))
    case AtEntry(e) => StepEntry(s, op, e)
    case WantLock => (s.(mu := Some(t)), InLock)
    case InLock => if Writes(op) then StepWrite(s, op) else StepRead(s, op)
    case Put(e, miss) => StepPut(s, op, e, miss)
    case Building => StepBuild(s, c)
    case Insert => StepInsert(s, op, c.e)
    case Iter(_, _, _) => (s, StepIter(s, pc, c))
  }

  /** Every operation in progress sees the abstract map that results. */
  function Witness(sh: Shared, threads: map<nat, Thread>): State {
    State(sh, map t | t in threads ::
      if threads[t].Busy? then threads[t].(seen := threads[t].seen + {Abs(sh)}) else Idle)
  }

  predicate Enabled(s: State, t: nat, c: Choice) {
    && t in s.threads
    && match s.threads[t]
       case Idle => c.Call?
       case Busy(op, pc, _) => if pc.Done? then c.Go? else OpEnabled(s.sh, op, pc, c)
  }

  function Step(s: State, t: nat, c: Choice): State
    requires Enabled(s, t, c)
  {
    match s.threads[t]
    case Idle => Witness(s.sh, s.threads[t := Busy(c.op, Start, {})])
    case Busy(op, pc, seen) =>
      if pc.Done? then Witness(s.sh, s.threads[t := Idle])
      else
        var (sh, pc') := OpStep(s.sh, t, op, pc, c);
        Witness(sh, s.threads[t := Busy(op, pc', seen)])
  }

  predicate Init(s: State) {
    && s.sh == Shared(map[], map[], false, None, 0, None, None)
    && forall t :: t in s.threads ==> s.threads[t] == Idle
  }
}

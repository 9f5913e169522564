/** A cache that grows in memory first and in a backing store once memory is refused, seen
    as one flat sequence of bytes. */
module HybridCache {
  import opened ByteBlocks
  import opened BlockStores
  import opened FileStores
  import opened LinearMemory

  /*** the backing store ***/

  datatype Backing = NoStore | Buffers(b: BufferStore) | OneFile(o: SingleFileStore) | Files(f: MultiFileStore)

  ghost function StoreRepr(s: Backing): set<object> {
    match s case NoStore => {} case Buffers(b) => {b} case OneFile(o) => {o} case Files(f) => {f}
  }

  ghost predicate StoreValid(s: Backing)
    reads StoreRepr(s)
  {
    match s case NoStore => true case Buffers(b) => b.Valid() case OneFile(o) => o.Valid() case Files(f) => f.Valid()
  }

  ghost function StoreBytes(s: Backing): seq<Byte>
    reads StoreRepr(s)
    requires StoreValid(s)
  {
    match s
    case NoStore => []
    case Buffers(b) => b.Contents()
    case OneFile(o) => o.Contents()
    case Files(f) => f.Contents()
  }

  method StoreGrowTo(s: Backing, size: nat, created: bool) returns (err: Error)
    requires StoreValid(s) && !s.NoStore?
    modifies StoreRepr(s)
    ensures StoreValid(s) && |StoreBytes(s)| >= |old(StoreBytes(s))|
    ensures StoreBytes(s)[..|old(StoreBytes(s))|] == old(StoreBytes(s))
    ensures err.NoError? <==> s.Buffers? || size <= |old(StoreBytes(s))| || created
    ensures if err.NoError? then size <= |StoreBytes(s)| else StoreBytes(s) == old(StoreBytes(s))
  {
    match s
    case Buffers(b) =>
      b.GrowTo(size);
      err := NoError;
    case OneFile(o) =>
      err := o.GrowTo(size, created);
    case Files(f) =>
      err := f.GrowTo(size, created);
  }

  method StoreReadAt(s: Backing, p: array<Byte>, lo: nat, hi: nat, off: int, room: nat) returns (n: nat, err: Error)
    requires StoreValid(s) && !s.NoStore? && lo <= hi <= p.Length && 0 <= off && off + (hi - lo) <= |StoreBytes(s)|
    modifies p
    ensures StoreValid(s) && StoreBytes(s) == old(StoreBytes(s))
    ensures ReadOutcome(old(p[..]), p[..], lo, hi, StoreBytes(s), off, room, n, err)
  {
    match s
    case Buffers(b) => n, err := b.ReadAt(p, lo, hi, off);
    case OneFile(o) => n, err := o.ReadAt(p, lo, hi, off, room);
    case Files(f) => n, err := f.ReadAt(p, lo, hi, off, room);
  }

  method StoreWriteAt(s: Backing, d: seq<Byte>, off: int, room: nat) returns (n: nat, err: Error)
    requires StoreValid(s) && !s.NoStore? && 0 <= off && off + |d| <= |StoreBytes(s)|
    modifies StoreRepr(s)
    ensures StoreValid(s) && WriteOutcome(old(StoreBytes(s)), StoreBytes(s), d, off, room, n, err)
  {
    match s
    case Buffers(b) => n, err := b.WriteAt(d, off);
    case OneFile(o) => n, err := o.WriteAt(d, off, room);
    case Files(f) => n, err := f.WriteAt(d, off, room);
  }

  /** A write that may go past the end of the store, where k bytes of it are seen. */
  method StoreWriteAny(s: Backing, d: seq<Byte>, off: nat, room: nat) returns (n: nat, err: Error, ghost k: nat)
    requires StoreValid(s) && !s.NoStore?
    modifies StoreRepr(s)
    ensures StoreValid(s) && StoreBytes(s) == AfterWrite(old(StoreBytes(s)), d, off, k) && k <= n <= |d|
    ensures k <= Max(0, |old(StoreBytes(s))| - off)
    ensures !err.IOError? ==> k == Min(|d|, Max(0, |old(StoreBytes(s))| - off))
  {
    ghost var was := StoreBytes(s);
    match s
    case Buffers(b) =>
      n, err := b.WriteAt(d, off);
      k := n;
    case OneFile(o) =>
      FileWriteSeen(o.data, o.size, off, d[..Min(|d|, room)]);
      n, err := o.WriteAt(d, off, room);
      k := Min(n, Max(0, o.size - off));
      assert d[..n][..k] == d[..k];
    case Files(f) =>
      n, err := f.WriteAt(d, off, room);
      k := n;
  }

  /** What a file's beginning of that size shows of a write. */
  lemma FileWriteSeen(data: seq<Byte>, size: nat, off: nat, d: seq<Byte>)
    requires size <= |data|
    ensures size <= |FileWrite(data, off, d)|
    ensures FileWrite(data, off, d)[..size] == AfterWrite(data[..size], d, off, Min(|d|, Max(0, size - off)))
  {
    var k := Min(|d|, Max(0, size - off));
    var f, r := FileWrite(data, off, d), AfterWrite(data[..size], d, off, k);
    FileWriteIs(data, off, d);
    if off + k <= size {
      SpliceIs(data[..size], off, d[..k]);
    }
    forall i | 0 <= i < size ensures f[i] == r[i] {
      if off <= i < off + k {
        assert d[..k][i - off] == d[i - off];
      }
    }
  }

  lemma FileWriteIs(data: seq<Byte>, off: nat, d: seq<Byte>)
    ensures |data| <= |FileWrite(data, off, d)|
    ensures forall i :: 0 <= i < |data| ==>
      FileWrite(data, off, d)[i] == if off <= i < off + |d| then d[i - off] else data[i]
  {
  }

  /** A file of the block's size, or, when it cannot be given that size, a list of files. */
  method NewFileStore(blockSize: nat, sized: bool) returns (s: Backing)
    ensures StoreValid(s) && fresh(StoreRepr(s)) && StoreBytes(s) == Zeros(blockSize)
    ensures if sized then s.OneFile? else s.Files?
  {
    if sized {
      var o := new SingleFileStore(blockSize);
      return OneFile(o);
    }
    var f := new MultiFileStore(blockSize);
    return Files(f);
  }

  /*** blocks handed out ***/

  /** A block handed out covers size bytes of the cache from at on, in memory or in the
      backing store. */
  datatype Block = Block(at: nat, size: nat, inStore: bool)

  function End(b: Block): nat {
    b.at + b.size
  }

  /** Blocks in the order in which they were handed out. */
  datatype Blocks = NoBlock | Upon(before: Blocks, last: Block)

  predicate Has(bs: Blocks, b: Block) {
    bs.Upon? && (bs.last == b || Has(bs.before, b))
  }

  /** A block lies behind the first i bytes, those in memory, or among them. */
  predicate Lies(b: Block, i: nat) {
    if b.inStore then i <= b.at else End(b) <= i
  }

  /** The blocks of a cache of n bytes, of which the first i are in memory: one after the
      other, and none across the boundary. */
  predicate Ledger(bs: Blocks, n: nat, i: nat, memoryOnly: bool) {
    bs.NoBlock? ||
    (End(bs.last) <= n && Lies(bs.last, i) && !(memoryOnly && bs.last.inStore)
      && Ledger(bs.before, bs.last.at, i, memoryOnly))
  }

  /** One block was added. */
  predicate Follows(bs: Blocks, was: Blocks) {
    bs.Upon? && bs.before == was
  }

  /** Blocks were added at most. */
  predicate Keeps(was: Blocks, bs: Blocks) {
    bs == was || (bs.Upon? && Keeps(was, bs.before))
  }

  lemma {:induction false} KeepsOn(a: Blocks, b: Blocks, c: Blocks)
    requires Keeps(a, b) && Keeps(b, c)
    ensures Keeps(a, c)
  {
    if c != b {
      KeepsOn(a, b, c.before);
    }
  }

  /** The blocks that are still whole when the cache is cut to n bytes. */
  function Kept(bs: Blocks, n: nat): Blocks {
    if bs.NoBlock? || End(bs.last) <= n then bs else Kept(bs.before, n)
  }

  /** One more block at the end. */
  lemma LedgerGrows(bs: Blocks, n: nat, i: nat, was: bool, memoryOnly: bool, b: Block, i': nat)
    requires Ledger(bs, n, i, was) && b.at == n && Lies(b, i') && (memoryOnly ==> was && !b.inStore)
    requires i' == i || (was && i <= i')
    ensures Ledger(Upon(bs, b), End(b), i', memoryOnly)
  {
    LedgerStays(bs, n, i, was, memoryOnly, i');
  }

  lemma {:induction false} LedgerStays(bs: Blocks, n: nat, i: nat, was: bool, memoryOnly: bool, i': nat)
    requires Ledger(bs, n, i, was) && (memoryOnly ==> was) && (i' == i || (was && i <= i'))
    ensures Ledger(bs, n, i', memoryOnly)
  {
    if bs.Upon? {
      LedgerStays(bs.before, bs.last.at, i, was, memoryOnly, i');
    }
  }

  /** A cache that is cut: memory only once nothing is left behind it. */
  lemma {:induction false} LedgerCut(bs: Blocks, n: nat, i: nat, memoryOnly: bool, n': nat, i': nat)
    requires Ledger(bs, n, i, memoryOnly) && i' <= i && (i' == i || n' == i')
    ensures Ledger(Kept(bs, n'), n', i', memoryOnly)
  {
    if bs.Upon? {
      if End(bs.last) <= n' {
        LedgerBelow(bs.before, bs.last.at, i, memoryOnly, n', i');
      } else {
        LedgerCut(bs.before, bs.last.at, i, memoryOnly, n', i');
      }
    }
  }

  lemma {:induction false} LedgerBelow(bs: Blocks, n: nat, i: nat, memoryOnly: bool, n': nat, i': nat)
    requires Ledger(bs, n, i, memoryOnly) && i' <= i && (i' == i || n' == i') && n <= n'
    ensures Ledger(bs, n, i', memoryOnly)
  {
    if bs.Upon? {
      LedgerBelow(bs.before, bs.last.at, i, memoryOnly, n', i');
    }
  }

  /** Each block lies inside the cache, and on one side of the boundary. */
  lemma {:induction false} LedgerHas(bs: Blocks, n: nat, i: nat, memoryOnly: bool, b: Block)
    requires Ledger(bs, n, i, memoryOnly) && Has(bs, b)
    ensures End(b) <= n && Lies(b, i) && !(memoryOnly && b.inStore)
  {
    if bs.last != b {
      LedgerHas(bs.before, bs.last.at, i, memoryOnly, b);
    }
  }

  /** No two blocks share a byte. */
  predicate Apart(a: Block, b: Block) {
    End(a) <= b.at || End(b) <= a.at
  }

  lemma {:induction false} BlocksApart(bs: Blocks, n: nat, i: nat, memoryOnly: bool, a: Block, b: Block)
    requires Ledger(bs, n, i, memoryOnly) && Has(bs, a) && Has(bs, b) && a != b
    ensures Apart(a, b)
  {
    if bs.last == a {
      LedgerHas(bs.before, bs.last.at, i, memoryOnly, b);
    } else if bs.last == b {
      LedgerHas(bs.before, bs.last.at, i, memoryOnly, a);
    } else {
      BlocksApart(bs.before, bs.last.at, i, memoryOnly, a, b);
    }
  }

  /** Exactly the blocks that fit stay. */
  lemma {:induction false} KeptExactly(bs: Blocks, n: nat, i: nat, memoryOnly: bool, n': nat, b: Block)
    requires Ledger(bs, n, i, memoryOnly)
    ensures Has(Kept(bs, n'), b) <==> Has(bs, b) && End(b) <= n'
  {
    if bs.Upon? {
      if End(bs.last) <= n' {
        if Has(bs.before, b) {
          LedgerHas(bs.before, bs.last.at, i, memoryOnly, b);
        }
      } else {
        KeptExactly(bs.before, bs.last.at, i, memoryOnly, n', b);
      }
    }
  }

  function BytesOf(c: seq<Byte>, b: Block): seq<Byte> {
    if End(b) <= |c| then c[b.at..End(b)] else []
  }

  /** Every other live block has the bytes it had. */
  ghost predicate OthersKept(was: seq<Byte>, now: seq<Byte>, bs: Blocks, b: Block) {
    forall a :: Has(bs, a) && a != b ==> BytesOf(now, a) == BytesOf(was, a)
  }

  /** n bytes from at on reach into the block. */
  predicate Reaches(at: nat, n: nat, b: Block) {
    Max(at, b.at) < Min(at + n, End(b))
  }

  lemma OthersAreKept(bs: Blocks, i: nat, memoryOnly: bool, b: Block, c: seq<Byte>, d: seq<Byte>, off: nat, k: nat)
    requires Ledger(bs, |c|, i, memoryOnly) && Has(bs, b) && off + k <= b.size && k <= |d|
    ensures OthersKept(c, AfterWrite(c, d, b.at + off, k), bs, b)
  {
    LedgerHas(bs, |c|, i, memoryOnly, b);
    forall a | Has(bs, a) && a != b ensures !Reaches(b.at + off, k, a) {
      BlocksApart(bs, |c|, i, memoryOnly, a, b);
    }
    NotReached(bs, i, memoryOnly, b, c, d, b.at + off, k);
  }

  lemma NotReached(bs: Blocks, i: nat, memoryOnly: bool, b: Block, c: seq<Byte>, d: seq<Byte>, at: nat, k: nat)
    requires Ledger(bs, |c|, i, memoryOnly) && k <= |d| && at + k <= |c|
    requires forall a :: Has(bs, a) && a != b ==> !Reaches(at, k, a)
    ensures OthersKept(c, AfterWrite(c, d, at, k), bs, b)
  {
    SpliceIs(c, at, d[..k]);
    var now := AfterWrite(c, d, at, k);
    forall a | Has(bs, a) && a != b ensures BytesOf(now, a) == BytesOf(c, a) {
      LedgerHas(bs, |c|, i, memoryOnly, a);
      assert !Reaches(at, k, a);
      assert forall x :: a.at <= x < End(a) ==> now[x] == c[x];
    }
  }

  function Other(x: Byte): (r: Byte)
    ensures r != x
  {
    if x == 0 then 1 else 0
  }

  /** Into a block that is reached one can write something that changes it. */
  lemma CanChange(a: Block, c: seq<Byte>, at: nat, k: nat) returns (d: seq<Byte>)
    requires End(a) <= |c| && at + k <= |c| && Reaches(at, k, a)
    ensures |d| == k && BytesOf(AfterWrite(c, d, at, k), a) != BytesOf(c, a)
  {
    d := seq(k, x requires 0 <= x < k => Other(c[at + x]));
    assert d[..k] == d;
    SpliceIs(c, at, d);
    var x := Max(at, a.at);
    assert d[x - at] == Other(c[at + (x - at)]);
    Differ(c, AfterWrite(c, d, at, k), a, x);
  }

  lemma Differ(c: seq<Byte>, c': seq<Byte>, a: Block, x: nat)
    requires a.at <= x < End(a) <= |c| == |c'| && c'[x] != c[x]
    ensures BytesOf(c', a) != BytesOf(c, a)
  {
    assert BytesOf(c', a)[x - a.at] == c'[x] && BytesOf(c, a)[x - a.at] == c[x];
  }

  /** The write leaves all live blocks but b alone, whatever is written. */
  ghost predicate Harmless(bs: Blocks, b: Block, c: seq<Byte>, at: nat, k: nat) {
    forall d :: |d| == k ==> OthersKept(c, AfterWrite(c, d, at, k), bs, b)
  }

  /** A write to a block, wherever it ends, is harmless exactly if it reaches into no other. */
  lemma HarmlessIff(bs: Blocks, i: nat, memoryOnly: bool, b: Block, c: seq<Byte>, at: nat, k: nat)
    requires Ledger(bs, |c|, i, memoryOnly) && at + k <= |c|
    ensures Harmless(bs, b, c, at, k) <==> forall a :: Has(bs, a) && a != b ==> !Reaches(at, k, a)
  {
    if a :| Has(bs, a) && a != b && Reaches(at, k, a) {
      LedgerHas(bs, |c|, i, memoryOnly, a);
      var d := CanChange(a, c, at, k);
      assert !OthersKept(c, AfterWrite(c, d, at, k), bs, b);
    } else {
      forall d: seq<Byte> | |d| == k ensures OthersKept(c, AfterWrite(c, d, at, k), bs, b) {
        NotReached(bs, i, memoryOnly, b, c, d, at, k);
      }
    }
  }

  lemma WroteNothing(c: seq<Byte>, d: seq<Byte>, off: int)
    ensures AfterWrite(c, d, off, 0) == c
  {
    if 0 <= off <= |c| {
      SpliceIs(c, off, d[..0]);
      assert Splice(c, off, d[..0]) == c;
    }
  }

  /** What a write to the backing store makes of the bytes of the cache. */
  lemma JoinedWritten(c: seq<Byte>, i: nat, s: seq<Byte>, j: nat, s': seq<Byte>, d: seq<Byte>, at: nat, k: nat)
    requires i <= |c| && j <= |s| && i <= at && k <= |d| && k <= Max(0, |s| - (at - i))
      && s' == AfterWrite(s, d, at - i, k)
    ensures |s'| == |s| && Joined(c, i, s', j) == AfterWrite(Joined(c, i, s, j), d, at, Min(k, Max(0, i + j - at)))
  {
    var k' := Min(k, Max(0, i + j - at));
    JoinedIs(c, i, s, j);
    JoinedIs(c, i, s', j);
    if at - i + k <= |s| {
      SpliceIs(s, at - i, d[..k]);
    }
    if at + k' <= i + j {
      SpliceIs(Joined(c, i, s, j), at, d[..k']);
    }
  }

  lemma StoreGrown(m: seq<Byte>, i: nat, was: seq<Byte>, now: seq<Byte>, k: nat)
    requires i <= |m| && k <= |was| <= |now| && now[..|was|] == was
    ensures Joined(m, i, now, k) == Joined(m, i, was, k)
  {
    JoinedIs(m, i, now, k);
    JoinedIs(m, i, was, k);
    assert now[..k] == was[..k];
  }

  lemma MemoryGrown(was: seq<Byte>, now: seq<Byte>, k: nat)
    requires k <= |was| <= |now| && now == was + Zeros(|now| - |was|)
    ensures Joined(now, k, [], 0) == Joined(was, k, [], 0)
  {
    assert now[..k] == was[..k];
  }

  /** More bytes of the last part in use: the bytes before them stay. */
  lemma NextBytes(m: seq<Byte>, i: nat, i': nat, s: seq<Byte>, j: nat, j': nat)
    requires i <= i' <= |m| && j <= j' <= |s| && (i < i' ==> j' == 0)
    ensures Prefix(Joined(m, i', s, j'), i + j) == Joined(m, i, s, j)
  {
    JoinedIs(m, i, s, j);
    JoinedIs(m, i', s, j');
  }

  /** The first i bytes of m, then the first j bytes of s. */
  function Joined(m: seq<Byte>, i: nat, s: seq<Byte>, j: nat): (r: seq<Byte>)
    requires i <= |m| && j <= |s|
    ensures |r| == i + j
  {
    seq(i + j, k requires 0 <= k < i + j => if k < i then m[k] else s[k - i])
  }

  lemma JoinedIs(m: seq<Byte>, i: nat, s: seq<Byte>, j: nat)
    requires i <= |m| && j <= |s|
    ensures forall k :: 0 <= k < i + j ==> Joined(m, i, s, j)[k] == if k < i then m[k] else s[k - i]
  {
  }

  function Prefix(c: seq<Byte>, n: nat): seq<Byte> {
    if n <= |c| then c[..n] else c
  }

  function Truncated(c: seq<Byte>, n: nat): (r: seq<Byte>)
    ensures |r| == Max(0, |c| - n)
  {
    Prefix(c, Max(0, |c| - n))
  }

  lemma Cut(m: seq<Byte>, i: nat, s: seq<Byte>, j: nat, i': nat, j': nat, size: nat)
    requires i' <= i <= |m| && j' <= j <= |s| && (i' == i || j' == 0) && i' + j' == Max(0, i + j - size)
    ensures Joined(m, i', s, j') == Truncated(Joined(m, i, s, j), size)
  {
    JoinedIs(m, i, s, j);
    JoinedIs(m, i', s, j');
  }

  lemma JoinedNothing(m: seq<Byte>, i: nat, s: seq<Byte>, s': seq<Byte>)
    requires i <= |m|
    ensures Joined(m, i, s, 0) == Joined(m, i, s', 0)
  {
  }

  class Cache {
    const blockSize: nat
    var memory: MappedMemory?
    var memoryOffset: nat
    var backing: Backing
    var backingOffset: nat
    /** The bytes of the cache, and the blocks that are handed out and not taken back. */
    ghost var contents: seq<Byte>
    ghost var live: Blocks

    ghost function Repr(): set<object>
      reads this
    {
      {this} + (if memory == null then {} else {memory as object}) + StoreRepr(backing)
    }

    ghost predicate Shaped()
      reads `memory, `memoryOffset, `backing, `backingOffset, `contents, memory, StoreRepr(backing)
    {
      && (if memory == null then memoryOffset == 0 else memory.Valid() && memoryOffset <= |memory.buf|)
      && StoreValid(backing) && backingOffset <= |StoreBytes(backing)|
      && this !in StoreRepr(backing) && memory !in StoreRepr(backing)
      && (memory == null ==> !backing.NoStore?)
      && contents == Joined(Committed(), memoryOffset, StoreBytes(backing), backingOffset)
    }

    /** Live blocks share no byte, lie inside the cache, and do not cross its boundary. */
    ghost predicate Accounted()
      reads `live, `memoryOffset, `backing, `backingOffset
    {
      Ledger(live, memoryOffset + backingOffset, memoryOffset, backing.NoStore?)
    }

    ghost predicate Valid()
      reads `live, `memory, `memoryOffset, `backing, `backingOffset, `contents, memory, StoreRepr(backing)
    {
      Shaped() && Accounted()
    }

    ghost function Committed(): seq<Byte>
      reads `memory, memory
    {
      if memory == null then [] else memory.buf
    }

    constructor InBuffers(blockSize: nat)
      ensures Valid() && fresh(Repr()) && contents == [] && live == NoBlock && this.blockSize == blockSize
    {
      var b := new BufferStore();
      this.blockSize := blockSize;
      memory, memoryOffset := null, 0;
      backing, backingOffset := Buffers(b), 0;
      contents, live := [], NoBlock;
    }

    constructor InMemoryFirst(blockSize: nat, m: MappedMemory)
      requires m.Valid()
      ensures Valid() && contents == [] && live == NoBlock && this.blockSize == blockSize && memory == m
        && backing == NoStore
    {
      this.blockSize := blockSize;
      memory, memoryOffset := m, 0;
      backing, backingOffset := NoStore, 0;
      contents, live := [], NoBlock;
    }

    constructor InFiles(blockSize: nat, sized: bool)
      ensures Valid() && fresh(Repr()) && contents == [] && live == NoBlock && this.blockSize == blockSize
    {
      var store := NewFileStore(blockSize, sized);
      this.blockSize := blockSize;
      memory, memoryOffset := null, 0;
      backing, backingOffset := store, 0;
      contents, live := [], NoBlock;
    }

    /*** growing ***/

    /** There is memory for the next size bytes: no store has taken over, and they are
        committed, or reserved and granted. */
    ghost predicate MemoryHas(size: nat, granted: bool)
      reads `memory, `memoryOffset, `backing, memory
    {
      backing.NoStore? && memory != null &&
      (memoryOffset + size <= |memory.buf| || (memoryOffset + size <= memory.reserved && granted))
    }

    /** The store has the next size bytes or can be given them; `created` says whether a file
        can be created or a larger size set. */
    ghost predicate StoreHas(size: nat, created: bool)
      reads `backing, `backingOffset, StoreRepr(backing)
      requires StoreValid(backing)
    {
      backing.Buffers? || created || (!backing.NoStore? && backingOffset + size <= |StoreBytes(backing)|)
    }

    /** The cache grew by size bytes, or not at all; nothing that was there changed. */
    ghost predicate Grew(ok: bool, was: seq<Byte>, size: nat)
      reads `contents
    {
      if ok then |contents| == |was| + size && Prefix(contents, |was|) == was else contents == was
    }

    /** Takes the next size bytes of the backing store. */
    method AllocInStore(size: nat, created: bool) returns (ok: bool)
      requires Shaped() && !backing.NoStore?
      modifies `memoryOffset, `backingOffset, `contents, StoreRepr(backing)
      ensures Shaped() && Grew(ok, old(contents), size) && ok == old(StoreHas(size, created))
      ensures !ok ==> |StoreBytes(backing)| == |old(StoreBytes(backing))|
      ensures memoryOffset == old(memoryOffset) && backingOffset == old(backingOffset) + if ok then size else 0
    {
      var err := GrowStore(backingOffset + size, created);
      ok := err.NoError?;
      if ok {
        HandOut(memoryOffset, backingOffset + size);
      }
    }

    /** Moves the ends of what is in use. */
    method HandOut(i: nat, j: nat)
      requires Shaped() && memoryOffset <= i <= |Committed()| && backingOffset <= j <= |StoreBytes(backing)|
      requires i == memoryOffset || j == 0
      modifies `memoryOffset, `backingOffset, `contents
      ensures Shaped() && Grew(true, old(contents), i + j - |old(contents)|) && memoryOffset == i && backingOffset == j
    {
      ghost var c, bytes := Committed(), StoreBytes(backing);
      NextBytes(c, memoryOffset, i, bytes, backingOffset, j);
      memoryOffset := i;
      backingOffset := j;
      contents := Joined(c, i, bytes, j);
    }

    method GrowStore(size: nat, created: bool) returns (err: Error)
      requires Shaped() && !backing.NoStore?
      modifies StoreRepr(backing)
      ensures Shaped()
      ensures err.NoError? <==> backing.Buffers? || size <= |old(StoreBytes(backing))| || created
      ensures if err.NoError? then size <= |StoreBytes(backing)|
              else |StoreBytes(backing)| == |old(StoreBytes(backing))|
    {
      ghost var was := StoreBytes(backing);
      err := StoreGrowTo(backing, size, created);
      StoreGrown(Committed(), memoryOffset, was, StoreBytes(backing), backingOffset);
    }

    /** Takes the next size bytes of memory. */
    method AllocInMemory(size: nat, granted: bool) returns (ok: bool)
      requires Shaped() && memory != null && backing.NoStore?
      modifies `memoryOffset, `backingOffset, `contents, memory
      ensures Shaped() && Grew(ok, old(contents), size) && ok == old(MemoryHas(size, granted))
      ensures !ok ==> memory.buf == old(memory.buf)
      ensures memoryOffset == old(memoryOffset) + (if ok then size else 0) && backingOffset == old(backingOffset)
    {
      ok := GrowMemory(memoryOffset + size, granted);
      if ok {
        HandOut(memoryOffset + size, backingOffset);
      }
    }

    method GrowMemory(size: nat, granted: bool) returns (ok: bool)
      requires Shaped() && memory != null && backing.NoStore?
      modifies memory
      ensures Shaped()
      ensures ok <==> size <= |old(memory.buf)| || (size <= memory.reserved && granted)
      ensures if ok then size <= |memory.buf| else memory.buf == old(memory.buf)
    {
      ghost var was := memory.buf;
      ok := memory.Reallocate(size, granted);
      MemoryGrown(was, memory.buf, memoryOffset);
    }

    /** Hands out the next size bytes: in memory exactly if there is memory for them, else in
        the backing store, which is created when it is first needed; it fails exactly if
        neither has them, and then nothing changes.  What was there before stays. */
    method AllocBlock(size: nat, grant: Grant) returns (ok: bool, block: Block)
      requires Valid()
      modifies this, Repr()
      ensures Valid() && memory == old(memory) && (backing == old(backing) || fresh(StoreRepr(backing)))
      ensures ok <==> old(MemoryHas(size, grant.granted)) || old(StoreHas(size, grant.created))
      ensures block.at == |old(contents)| && block.size == size
      ensures ok ==> (!block.inStore <==> old(MemoryHas(size, grant.granted)))
      ensures Grew(ok, old(contents), size) && (!ok ==> backing == old(backing) && Refused(size, grant))
      ensures ok ==> if block.inStore then !backing.NoStore? && memoryOffset <= block.at else End(block) <= memoryOffset
      ensures live == if ok then Upon(old(live), block) else old(live)
    {
      ghost var n, i, memoryOnly := memoryOffset + backingOffset, memoryOffset, backing.NoStore?;
      ok, block := AllocBytes(size, grant);
      if ok {
        LedgerGrows(live, n, i, memoryOnly, backing.NoStore?, block, memoryOffset);
      } else {
        LedgerStays(live, n, i, memoryOnly, backing.NoStore?, memoryOffset);
      }
      live := if ok then Upon(live, block) else live;
    }

    /** Neither memory nor the store has the next size bytes. */
    ghost predicate Refused(size: nat, grant: Grant)
      reads `memory, `memoryOffset, `backing, `backingOffset, memory, StoreRepr(backing)
      requires StoreValid(backing)
    {
      !MemoryHas(size, grant.granted) && !StoreHas(size, grant.created)
    }

    method AllocBytes(size: nat, grant: Grant) returns (ok: bool, block: Block)
      requires Shaped()
      modifies `memoryOffset, `backingOffset, `contents, `backing, memory, StoreRepr(backing)
      ensures Shaped() && memory == old(memory) && (backing == old(backing) || fresh(StoreRepr(backing)))
      ensures ok <==> old(MemoryHas(size, grant.granted)) || old(StoreHas(size, grant.created))
      ensures ok ==> (!block.inStore <==> old(MemoryHas(size, grant.granted)))
      ensures Grew(ok, old(contents), size) && (backing.NoStore? ==> old(backing).NoStore?)
      ensures block.at == |old(contents)| && block.size == size
      ensures ok ==> if block.inStore then !backing.NoStore? && memoryOffset == old(memoryOffset) <= block.at
                     else backing.NoStore? && memoryOffset == End(block) && old(memoryOffset) <= memoryOffset
      ensures memoryOffset + backingOffset == old(memoryOffset) + old(backingOffset) + if ok then size else 0
      ensures !ok ==> memoryOffset == old(memoryOffset) && backing == old(backing) && Refused(size, grant)
    {
      block := Block(memoryOffset + backingOffset, size, !backing.NoStore?);
      if backing.NoStore? {
        ok := AllocInMemory(size, grant.granted);
        if ok || !grant.created {
          return;
        }
        InitFileCache(grant.sized);
        block := block.(inStore := true);
      }
      ok := AllocInStore(size, grant.created);
    }

    method InitFileCache(sized: bool)
      requires Shaped() && backing.NoStore?
      modifies `backing
      ensures Shaped() && !backing.NoStore? && fresh(StoreRepr(backing))
    {
      var store := NewFileStore(blockSize, sized);
      JoinedNothing(Committed(), memoryOffset, [], StoreBytes(store));
      backing := store;
    }

    /** Cuts size bytes off the end, or all there are, and takes back the blocks that are no
        longer whole. */
    method RewindBySize(size0: nat)
      requires Valid()
      modifies `memoryOffset, `backingOffset, `contents, `live
      ensures Valid() && contents == Truncated(old(contents), size0) && live == Kept(old(live), |contents|)
    {
      ghost var n, i := memoryOffset + backingOffset, memoryOffset;
      CutBytes(size0);
      TakeBack(n, i);
    }

    /** Of n bytes, i in memory, fewer are left. */
    ghost method TakeBack(n: nat, i: nat)
      requires Ledger(live, n, i, backing.NoStore?) && memoryOffset <= i
      requires memoryOffset == i || backingOffset == 0
      modifies `live
      ensures Accounted() && live == Kept(old(live), memoryOffset + backingOffset)
    {
      LedgerCut(live, n, i, backing.NoStore?, memoryOffset + backingOffset, memoryOffset);
      live := Kept(live, memoryOffset + backingOffset);
    }

    method CutBytes(size0: nat)
      requires Shaped()
      modifies `memoryOffset, `backingOffset, `contents
      ensures Shaped() && contents == Truncated(old(contents), size0)
      ensures memoryOffset <= old(memoryOffset) && (memoryOffset == old(memoryOffset) || backingOffset == 0)
    {
      ghost var c, i, s, j := Committed(), memoryOffset, StoreBytes(backing), backingOffset;
      Shrink(size0);
      assert Committed() == c;
      assert StoreBytes(backing) == s;
      Cut(c, i, s, j, memoryOffset, backingOffset, size0);
      contents := Joined(c, memoryOffset, s, backingOffset);
    }

    /** Memory is only given up when nothing is left in the backing store. */
    method Shrink(size0: nat)
      modifies `memoryOffset, `backingOffset
      ensures memoryOffset + backingOffset == Max(0, old(memoryOffset) + old(backingOffset) - size0)
      ensures memoryOffset <= old(memoryOffset) && backingOffset <= old(backingOffset)
      ensures memoryOffset == old(memoryOffset) || backingOffset == 0
    {
      var size := size0;
      if backingOffset >= size {
        backingOffset := backingOffset - size;
        return;
      }
      size := size - backingOffset;
      backingOffset := 0;
      if memoryOffset >= size {
        memoryOffset := memoryOffset - size;
        return;
      }
      size := size - memoryOffset;
      memoryOffset := 0;
    }

    /*** reading ***/

    /** Memory that is in use is committed, so asking for it never fails. */
    method Recommit(upTo: nat)
      requires Shaped() && upTo <= memoryOffset && memory != null
      modifies memory
      ensures Shaped() && memory.buf == old(memory.buf)
    {
      var ok := memory.Reallocate(upTo, false);
    }

    /** Reads into p from offset off, across the boundary: without a disk error, exactly the
        bytes there are.  A read that is cut short says so only if it starts outside the
        cache or nothing is in the backing store. */
    method ReadAt(p: array<Byte>, off0: int, room: nat) returns (n: nat, err: Error)
      requires Valid()
      modifies p, memory
      ensures Valid() && p[..] == AfterRead(old(p[..]), contents, off0, n)
      ensures Counted(p.Length, |contents|, off0, backingOffset, room, n, err, EOF)
    {
      if p.Length == 0 {
        return 0, NoError;
      }
      if off0 < 0 || off0 >= memoryOffset + backingOffset {
        return 0, EOF;
      }
      n, err := ReadInside(p, off0, room);
    }

    method ReadInside(p: array<Byte>, off0: nat, room: nat) returns (n: nat, err: Error)
      requires Shaped() && p.Length > 0 && off0 < memoryOffset + backingOffset
      modifies p, memory
      ensures Shaped() && p[..] == AfterRead(old(p[..]), contents, off0, n)
      ensures Counted(p.Length, |contents|, off0, backingOffset, room, n, err, EOF)
    {
      ghost var was := p[..];
      var m := ReadMemory(p, off0);
      if m == p.Length {
        return m, NoError;
      }
      n, err := ReadStore(backing, p, Committed(), memoryOffset, backingOffset, off0, m, room, was, contents);
    }

    /** The part of a read that lies in memory. */
    method ReadMemory(p: array<Byte>, off: nat) returns (m: nat)
      requires Shaped() && off < memoryOffset + backingOffset
      modifies p, memory
      ensures Shaped() && m == Min(p.Length, Max(0, memoryOffset - off))
      ensures p[..] == AfterRead(old(p[..]), contents, off, m)
    {
      m := Min(p.Length, Max(0, memoryOffset - off));
      ghost var was := p[..];
      if off < memoryOffset {
        Recommit(off + m);
        assert p as object !in StoreRepr(backing);
        CopyBytes(p, 0, memory.buf[off..off + m]);
      }
      JoinedMemory(was, p[..], Committed(), memoryOffset, StoreBytes(backing), backingOffset, off, m);
    }

    /** The rest of a read, from the backing store. */
    static method ReadStore(s: Backing, p: array<Byte>, ghost committed: seq<Byte>, i: nat, j: nat, off0: nat, m: nat,
                            room: nat, ghost was: seq<Byte>, ghost c: seq<Byte>)
      returns (n: nat, err: Error)
      requires StoreValid(s) && j <= |StoreBytes(s)| && (s.NoStore? ==> j == 0)
      requires i <= |committed| && c == Joined(committed, i, StoreBytes(s), j)
      requires m < p.Length == |was| && off0 < i + j
      requires m == Max(0, i - off0) && p[..] == AfterRead(was, c, off0, m)
      modifies p
      ensures StoreValid(s) && StoreBytes(s) == old(StoreBytes(s))
      ensures p[..] == AfterRead(was, c, off0, n) && Counted(p.Length, |c|, off0, j, room, n, err, EOF)
    {
      var off := off0 + m - i;
      var canRead := j - off;
      if canRead <= 0 {
        return m, EOF;
      }
      n, err := ReadTail(s, p, committed, i, j, off0, m, room, was, c);
    }

    static method ReadTail(s: Backing, p: array<Byte>, ghost committed: seq<Byte>, i: nat, j: nat, off0: nat, m: nat,
                           room: nat, ghost was: seq<Byte>, ghost c: seq<Byte>)
      returns (n: nat, err: Error)
      requires StoreValid(s) && !s.NoStore? && j <= |StoreBytes(s)| && i <= |committed|
        && c == Joined(committed, i, StoreBytes(s), j)
      requires m < p.Length == |was| && off0 + m < i + j && m == Max(0, i - off0)
      requires p[..] == AfterRead(was, c, off0, m)
      modifies p
      ensures StoreValid(s) && StoreBytes(s) == old(StoreBytes(s))
      ensures p[..] == AfterRead(was, c, off0, n) && Counted(p.Length, |c|, off0, j, room, n, err, EOF)
    {
      var off := off0 + m - i;
      ghost var before, bytes := p[..], StoreBytes(s);
      var nn;
      nn, err := StoreReadAt(s, p, m, m + Min(p.Length - m, j - off), off, room);
      assert StoreBytes(s) == bytes;
      JoinedRead(was, before, p[..], committed, i, bytes, j, off0, m, room, nn, err);
      n := m + nn;
    }

    /*** writing ***/

    /** Writes d at offset off, across the boundary: without a disk error, exactly the bytes
        there is room for; the cache keeps its size and all other bytes. */
    method WriteAt(d: seq<Byte>, off0: int, room: nat) returns (n: nat, err: Error)
      requires Valid()
      modifies `contents, memory, StoreRepr(backing)
      ensures Valid() && contents == AfterWrite(old(contents), d, off0, n)
      ensures Counted(|d|, |old(contents)|, off0, backingOffset, room, n, err, ShortWrite)
    {
      n, err := WriteBytes(d, off0, room);
    }

    method WriteBytes(d: seq<Byte>, off0: int, room: nat) returns (n: nat, err: Error)
      requires Shaped()
      modifies `contents, memory, StoreRepr(backing)
      ensures 0 <= off0 && off0 + |d| <= memoryOffset ==> n == |d|
      ensures Shaped() && contents == AfterWrite(old(contents), d, off0, n)
      ensures Counted(|d|, |old(contents)|, off0, backingOffset, room, n, err, ShortWrite)
    {
      if d == [] {
        return 0, NoError;
      }
      if off0 < 0 || off0 >= memoryOffset + backingOffset {
        return 0, ShortWrite;
      }
      var m := WriteMemory(d, off0);
      if m == |d| {
        return m, NoError;
      }
      n, err := WriteRest(d, off0, m, room, old(contents));
    }

    method WriteRest(d: seq<Byte>, off0: nat, m: nat, room: nat, ghost was: seq<Byte>) returns (n: nat, err: Error)
      requires Shaped() && off0 < memoryOffset + backingOffset && m == Max(0, memoryOffset - off0) && m < |d|
      requires |was| == |contents| && contents == AfterWrite(was, d, off0, m)
      modifies `contents, StoreRepr(backing)
      ensures Shaped() && contents == AfterWrite(was, d, off0, n)
      ensures Counted(|d|, |was|, off0, backingOffset, room, n, err, ShortWrite)
    {
      var off := off0 + m - memoryOffset;
      var canWrite := backingOffset - off;
      if canWrite <= 0 {
        return m, ShortWrite;
      }
      n, err := WriteStore(d, off0, m, m + Min(|d| - m, canWrite), room, was);
    }

    /** The part of a write that lies in memory. */
    method WriteMemory(d: seq<Byte>, off: nat) returns (m: nat)
      requires Shaped() && off < memoryOffset + backingOffset
      modifies `contents, memory
      ensures Shaped() && m == Min(|d|, Max(0, memoryOffset - off)) && contents == AfterWrite(old(contents), d, off, m)
    {
      m := Min(|d|, Max(0, memoryOffset - off));
      WroteFirst(contents, d, off, m);
      if off < memoryOffset {
        Recommit(off + m);
        JoinedSpliceMemory(memory.buf, memoryOffset, StoreBytes(backing), backingOffset, off, d[..m]);
        memory.buf := Splice(memory.buf, off, d[..m]);
        contents := Splice(contents, off, d[..m]);
      }
    }

    /** The part of a write that lies in the backing store. */
    method WriteStore(d: seq<Byte>, off0: nat, m: nat, k: nat, room: nat, ghost was: seq<Byte>)
        returns (n: nat, err: Error)
      requires Shaped() && m <= k <= |d| && memoryOffset <= off0 + m && off0 + k <= memoryOffset + backingOffset
      requires !backing.NoStore? && |was| == |contents| && contents == AfterWrite(was, d, off0, m)
      modifies `contents, StoreRepr(backing)
      ensures Shaped() && contents == AfterWrite(was, d, off0, n)
      ensures n <= k && if err.IOError? then room < k - m else n == k && err == NoError
    {
      ghost var bytes, c, i, j := StoreBytes(backing), Committed(), memoryOffset, backingOffset;
      n, err := StoreWriteAt(backing, d[m..k], off0 + m - memoryOffset, room);
      ghost var now := StoreBytes(backing);
      StoreWritten(was, d, off0, m, k, c, i, bytes, now, j, room, n, err);
      n := m + n;
      contents := Joined(c, i, now, j);
    }

    /*** writing to a block ***/

    /** Writes d at offset off of a live block.  A block in memory takes what fits; a write to
        one in the backing store is cut off by the end of the cache alone.  What stays in the
        block leaves all others alone. */
    method WriteBlock(b: Block, d: seq<Byte>, off: int, room: nat) returns (n: nat, err: Error, ghost k: nat)
      requires Valid() && Has(live, b)
      modifies `contents, memory, StoreRepr(backing)
      ensures Valid() && k <= n <= |d| && contents == AfterWrite(old(contents), d, b.at + off, k)
      ensures !b.inStore && off >= 0 ==> n == k == Min(|d|, Max(0, b.size - off))
      ensures b.inStore && off >= 0 && !err.IOError? ==> k == Min(|d|, Max(0, |old(contents)| - (b.at + off)))
      ensures if off < 0 then k == 0 && !err.NoError? else !b.inStore && err.NoError? ==> n == |d|
      ensures off >= 0 && off + k <= b.size ==> OthersKept(old(contents), contents, live, b)
    {
      LedgerHas(live, memoryOffset + backingOffset, memoryOffset, backing.NoStore?, b);
      ghost var was := contents;
      if off < 0 {
        WroteNothing(contents, d, b.at + off);
        return 0, if b.inStore then IOError else ShortWrite, 0;
      }
      n, err, k := WriteInBlock(b, d, off, room);
      if off + k <= b.size {
        OthersAreKept(live, memoryOffset, backing.NoStore?, b, was, d, off, k);
      }
    }

    method WriteInBlock(b: Block, d: seq<Byte>, off: nat, room: nat) returns (n: nat, err: Error, ghost k: nat)
      requires Shaped() && if b.inStore then !backing.NoStore? && memoryOffset <= b.at else End(b) <= memoryOffset
      modifies `contents, memory, StoreRepr(backing)
      ensures Shaped() && k <= n <= |d| && contents == AfterWrite(old(contents), d, b.at + off, k)
      ensures !b.inStore ==> n == k == Min(|d|, Max(0, b.size - off)) && (err.NoError? ==> n == |d|)
      ensures b.inStore && !err.IOError? ==> k == Min(|d|, Max(0, |old(contents)| - (b.at + off)))
    {
      n, err, k := WriteBytesAt(b.inStore, b.at + off, Max(0, b.size - off), d, room);
    }

    method WriteBytesAt(inStore: bool, at: nat, fits: nat, d: seq<Byte>, room: nat)
        returns (n: nat, err: Error, ghost k: nat)
      requires Shaped()
      requires if inStore then !backing.NoStore? && memoryOffset <= at else fits > 0 ==> at + fits <= memoryOffset
      modifies `contents, memory, StoreRepr(backing)
      ensures Shaped() && k <= n <= |d| && contents == AfterWrite(old(contents), d, at, k)
      ensures !inStore ==> n == k == Min(|d|, fits) && (err.NoError? ==> n == |d|)
      ensures inStore && !err.IOError? ==> k == Min(|d|, Max(0, |old(contents)| - at))
    {
      if inStore {
        n, err, k := WriteBlockInStore(at, d, room);
      } else {
        n, err := WriteBlockInMemory(at, fits, d);
        k := n;
      }
    }

    method WriteBlockInMemory(at: nat, fits: nat, d: seq<Byte>) returns (n: nat, err: Error)
      requires Shaped() && (fits > 0 ==> at + fits <= memoryOffset)
      modifies `contents, memory
      ensures Shaped() && n == Min(|d|, fits) && contents == AfterWrite(old(contents), d, at, n)
        && (err.NoError? ==> n == |d|)
    {
      if fits == 0 {
        WroteNothing(contents, d, at);
        return 0, ShortWrite;
      }
      n := Min(|d|, fits);
      assert d[..n][..n] == d[..n];
      n := WriteMemory(d[..n], at);
      err := if n < |d| then ShortWrite else NoError;
    }

    method WriteBlockInStore(at: nat, d: seq<Byte>, room: nat) returns (n: nat, err: Error, ghost k: nat)
      requires Shaped() && !backing.NoStore? && memoryOffset <= at
      modifies `contents, StoreRepr(backing)
      ensures Shaped() && k <= n <= |d| && contents == AfterWrite(old(contents), d, at, k)
      ensures !err.IOError? ==> k == Min(|d|, Max(0, |old(contents)| - at))
    {
      ghost var bytes, c, i, j := StoreBytes(backing), Committed(), memoryOffset, backingOffset;
      n, err, k := StoreWriteAny(backing, d, at - memoryOffset, room);
      ghost var now := StoreBytes(backing);
      JoinedWritten(c, i, bytes, j, now, d, at, k);
      k := Min(k, Max(0, i + j - at));
      contents := Joined(c, i, now, j);
    }

    /*** copying from a reader ***/

    /** Appends n bytes of a reader that can deliver src, block by block; a block is no
        larger than maxBlock while the cache is in memory.  `grants` says what the system
        grants each block.  When n bytes were copied the cache grew by exactly those; when
        it stops before, the bytes copied are there, in order, and the reader had no more, or
        there was neither memory nor store for the next block, or the disk gave out under
        one in the store. */
    method CopyFromN(src: seq<Byte>, n: nat, maxBlock: nat, grants: seq<Grant>)
        returns (written: nat, ghost last: Grant)
      requires Valid() && maxBlock >= 1 && |grants| >= n
      modifies this, Repr()
      ensures Valid() && fresh(Repr() - old(Repr())) && Keeps(old(live), live)
      ensures Copied(old(contents), contents, src, written, n)
      ensures written < n ==>
        written == |src| || (last in grants && Stopped(|old(contents)| + written, n - written, maxBlock, last))
    {
      written, last := 0, Grant(true, true, true, n);
      var blocks, going := 0, true;
      ghost var was := contents;
      CopiedNothing(was, src, n);
      while written < n && going
        invariant Valid() && fresh(Repr() - old(Repr())) && Keeps(old(live), live)
        invariant written <= n && Copied(was, contents, src, written, n)
        invariant going ==> blocks <= written && contents == With(was, src, written)
        invariant !going ==>
          written == |src| || (last in grants && Stopped(|was| + written, n - written, maxBlock, last))
        decreases n - written, going
      {
        last := grants[blocks];
        ghost var before := live;
        written, going := CopyStep(src, written, n, maxBlock, grants[blocks], was);
        KeepsOn(old(live), before, live);
        blocks := blocks + 1;
      }
    }

    /** How much a copy asks for at once when that much is left. */
    function NextSize(left: nat, maxBlock: nat): nat
      reads `backing
    {
      if backing.NoStore? && left > maxBlock then maxBlock else left
    }

    /** The disk gave out under the last block, which is in the store, so that only the cache's
        first upTo bytes were written. */
    ghost predicate GaveOut(upTo: nat, grant: Grant)
      reads `live
    {
      live.Upon? && live.last.inStore && live.last.at <= upTo < End(live.last) && grant.room < live.last.size
    }

    /** Why a copy stopped that had come to the cache's first upTo bytes. */
    ghost predicate Stopped(upTo: nat, left: nat, maxBlock: nat, grant: Grant)
      reads `live, `contents, `memory, `memoryOffset, `backing, `backingOffset, memory, StoreRepr(backing)
      requires StoreValid(backing)
    {
      GaveOut(upTo, grant) || (|contents| == upTo && Refused(NextSize(left, maxBlock), grant))
    }

    /** One more block of a copy; `going` says that it was filled. */
    method CopyStep(src: seq<Byte>, done: nat, n: nat, maxBlock: nat, grant: Grant, ghost was: seq<Byte>)
        returns (written: nat, going: bool)
      requires Valid() && maxBlock >= 1 && done < n && done <= |src| && contents == With(was, src, done)
      modifies this, Repr()
      ensures Valid() && memory == old(memory) && (backing == old(backing) || fresh(StoreRepr(backing)))
        && (live == old(live) || Follows(live, old(live)))
      ensures Copied(was, contents, src, written, n) && done <= written
      ensures if going then written > done && contents == With(was, src, written)
        else written == |src| || Stopped(|was| + written, n - written, maxBlock, grant)
    {
      var size := NextSize(n - done, maxBlock);
      var ok, nn := CopyBlock(src, done, size, grant, was);
      written, going := done + nn, nn == size;
      CopiedSoFar(was, contents, src, done, |was| + done, nn, size, ok);
      CopiedAll(was, contents, src, written, done + size, n);
    }

    /** Hands out a block and fills it from the reader. */
    method CopyBlock(src: seq<Byte>, done: nat, size: nat, grant: Grant, ghost was: seq<Byte>)
        returns (ok: bool, nn: nat)
      requires Valid() && size > 0 && done <= |src| && contents == With(was, src, done)
      modifies this, Repr()
      ensures Valid() && memory == old(memory) && (backing == old(backing) || fresh(StoreRepr(backing)))
      ensures if ok then Follows(live, old(live)) else live == old(live) && backing == old(backing)
      ensures nn <= size && done + nn <= |src| && (!ok ==> nn == 0 && contents == With(was, src, done))
      ensures ok ==>
        |contents| == |was| + done + size && Prefix(contents, |was| + done + nn) == With(was, src, done + nn)
      ensures nn < size ==>
        done + nn == |src| || if ok then GaveOut(|was| + done + nn, grant) else Refused(size, grant)
    {
      var block;
      ok, block := AllocBlock(size, grant);
      if !ok {
        return false, 0;
      }
      nn := FillBlock(src, done, size, block, grant.room, was);
    }

    /** Fills the block, the last one handed out, from the reader. */
    method FillBlock(src: seq<Byte>, done: nat, size: nat, block: Block, room: nat, ghost was: seq<Byte>)
        returns (nn: nat)
      requires Shaped() && size == block.size > 0 && done <= |src| && block.at == |was| + done
      requires |contents| == End(block) && Prefix(contents, block.at) == With(was, src, done)
      requires !block.inStore ==> End(block) <= memoryOffset
      modifies `contents, memory, StoreRepr(backing)
      ensures Shaped() && Repr() == old(Repr()) && nn <= size && done + nn <= |src| && |contents| == End(block)
      ensures Prefix(contents, block.at + nn) == With(was, src, done + nn)
      ensures nn < size ==> done + nn == |src| || (room < size && block.inStore)
    {
      var d := src[done..done + Min(size, |src| - done)];
      ghost var grown := contents;
      var err;
      nn, err := WriteBytes(d, block.at, room);
      FilledBlock(was, src, done, block.at, grown, size, d, nn);
    }
  }

  /** The first `written` bytes of src follow those that were there; when they are all that
      was asked for, nothing follows them. */
  predicate Copied(was: seq<Byte>, now: seq<Byte>, src: seq<Byte>, written: nat, n: nat) {
    && written <= n && written <= |src| && |now| >= |was| + written
    && Prefix(now, |was| + written) == With(was, src, written)
    && (written == n ==> now == With(was, src, n))
  }

  lemma CopiedNothing(was: seq<Byte>, src: seq<Byte>, n: nat)
    ensures Copied(was, was, src, 0, n) && With(was, src, 0) == was
  {
  }

  lemma CopiedAll(was: seq<Byte>, now: seq<Byte>, src: seq<Byte>, written: nat, upTo: nat, n: nat)
    requires Copied(was, now, src, written, upTo) && upTo <= n
    ensures Copied(was, now, src, written, n)
  {
  }

  lemma CopiedSoFar(was: seq<Byte>, now: seq<Byte>, src: seq<Byte>, done: nat, base: nat, nn: nat, size: nat, ok: bool)
    requires nn <= size && done + nn <= |src| && size > 0 && base == |was| + done
    requires if ok then |now| == base + size && Prefix(now, base + nn) == With(was, src, done + nn)
             else nn == 0 && now == With(was, src, done)
    ensures Copied(was, now, src, done + nn, done + size)
    ensures nn == size ==> now == With(was, src, done + nn)
  {
    assert Prefix(now, |now|) == now;
  }

  /** What the system grants one block: memory, a file or a larger one, the size of a first
      file at once, and room on the disk. */
  datatype Grant = Grant(granted: bool, created: bool, sized: bool, room: nat)

  /** c and the first n bytes of src. */
  function With(c: seq<Byte>, src: seq<Byte>, n: nat): (r: seq<Byte>)
    requires n <= |src|
    ensures |r| == |c| + n
  {
    c + src[..n]
  }

  lemma FilledBlock(was: seq<Byte>, src: seq<Byte>, done: nat, base: nat, grown: seq<Byte>, size: nat, d: seq<Byte>,
                    nn: nat)
    requires done <= |src| && base == |was| + done && |grown| == base + size
      && Prefix(grown, base) == With(was, src, done)
    requires |d| == Min(size, |src| - done) && d == src[done..done + |d|] && nn <= |d|
    ensures |AfterWrite(grown, d, base, nn)| == |grown|
    ensures Prefix(AfterWrite(grown, d, base, nn), base + nn) == With(was, src, done + nn)
  {
    SpliceIs(grown, base, d[..nn]);
    var now := AfterWrite(grown, d, base, nn);
    var all := With(was, src, done + nn);
    forall k | 0 <= k < base + nn ensures now[k] == all[k] {
      assert all[k] == if k < |was| then was[k] else src[k - |was|];
      if k < base {
        assert grown[k] == Prefix(grown, base)[k] == With(was, src, done)[k];
      } else {
        assert now[k] == d[k - base] == src[done + (k - base)];
      }
    }
  }

  /** c after the first n bytes of d were written at off. */
  function AfterWrite(c: seq<Byte>, d: seq<Byte>, off: int, n: nat): seq<Byte> {
    if n <= |d| && 0 <= off && off + n <= |c| then Splice(c, off, d[..n]) else c
  }

  lemma WroteFirst(c: seq<Byte>, d: seq<Byte>, off: nat, m: nat)
    requires m <= |d| && off <= |c| && (m > 0 ==> off + m <= |c|)
    ensures AfterWrite(c, d, off, m) == Splice(c, off, d[..m])
    ensures m == 0 ==> AfterWrite(c, d, off, m) == c
  {
  }

  lemma StoreWritten(was: seq<Byte>, d: seq<Byte>, off0: nat, m: nat, k: nat, c: seq<Byte>, i: nat, s: seq<Byte>,
                     s': seq<Byte>, j: nat, room: nat, nn: nat, err: Error)
    requires i <= |c| && j <= |s| && m <= k <= |d| && i <= off0 + m && off0 + k <= i + j == |was|
    requires Joined(c, i, s, j) == AfterWrite(was, d, off0, m)
    requires WriteOutcome(s, s', d[m..k], off0 + m - i, room, nn, err)
    ensures |s'| == |s| && Joined(c, i, s', j) == AfterWrite(was, d, off0, m + nn)
    ensures nn <= k - m && if err.IOError? then room < k - m else nn == k - m && err == NoError
  {
    WrotePart(s, s', d[m..k], off0 + m - i, room, nn, err);
    JoinedSpliceStore(c, i, s, j, off0 + m, d[m..k][..nn]);
    WroteMore(was, d, off0, m, k, nn);
  }

  lemma WroteMore(was: seq<Byte>, d: seq<Byte>, off: nat, m: nat, k: nat, nn: nat)
    requires m + nn <= k <= |d| && off + k <= |was|
    ensures |AfterWrite(was, d, off, m)| == |was|
    ensures Splice(AfterWrite(was, d, off, m), off + m, d[m..k][..nn]) == AfterWrite(was, d, off, m + nn)
  {
    assert d[m..k][..nn] == d[m..m + nn];
    WriteFurther(was, off, d, m, nn);
  }

  lemma WrotePart(was: seq<Byte>, now: seq<Byte>, d: seq<Byte>, off: nat, room: nat, nn: nat, err: Error)
    requires off + |d| <= |was| && WriteOutcome(was, now, d, off, room, nn, err)
    ensures nn <= |d| && now == Splice(was, off, d[..nn])
    ensures if err.IOError? then room < |d| else nn == |d| && err == NoError
  {
  }

  lemma JoinedSpliceMemory(m: seq<Byte>, i: nat, s: seq<Byte>, j: nat, off: nat, d: seq<Byte>)
    requires i <= |m| && j <= |s| && off + |d| <= i
    ensures Joined(Splice(m, off, d), i, s, j) == Splice(Joined(m, i, s, j), off, d)
  {
    SpliceIs(m, off, d);
    SpliceIs(Joined(m, i, s, j), off, d);
    JoinedIs(m, i, s, j);
    JoinedIs(Splice(m, off, d), i, s, j);
  }

  lemma JoinedSpliceStore(m: seq<Byte>, i: nat, s: seq<Byte>, j: nat, at: nat, d: seq<Byte>)
    requires i <= |m| && j <= |s| && i <= at && at + |d| <= i + j
    ensures Joined(m, i, Splice(s, at - i, d), j) == Splice(Joined(m, i, s, j), at, d)
  {
    SpliceIs(s, at - i, d);
    SpliceIs(Joined(m, i, s, j), at, d);
    JoinedIs(m, i, s, j);
    JoinedIs(m, i, Splice(s, at - i, d), j);
  }

  /** How many bytes a call for len bytes at off comes to in a cache of that size, and what
      it says: all there are, unless the disk fails before len bytes. */
  predicate Counted(len: nat, size: nat, off: int, inStore: nat, room: nat, n: nat, err: Error, short: Error) {
    var count := if 0 <= off < size then Min(len, size - off) else 0;
    if err.IOError? then room < len && n <= count
    else n == count && err == if n == len || (n > 0 && inStore > 0) then NoError else short
  }

  lemma JoinedMemory(was: seq<Byte>, p: seq<Byte>, c: seq<Byte>, i: nat, s: seq<Byte>, j: nat, off: nat, m: nat)
    requires i <= |c| && j <= |s| && (m > 0 ==> off + m <= i) && m <= |was| && off <= i + j
    requires p == if m > 0 then Splice(was, 0, c[off..off + m]) else was
    ensures p == AfterRead(was, Joined(c, i, s, j), off, m)
  {
    JoinedIs(c, i, s, j);
    if m > 0 {
      assert Joined(c, i, s, j)[off..off + m] == c[off..off + m];
    }
  }

  lemma JoinedRead(was: seq<Byte>, p: seq<Byte>, p': seq<Byte>, c: seq<Byte>, i: nat, s: seq<Byte>, j: nat, off0: nat,
                   m: nat, room: nat, nn: nat, err: Error)
    requires i <= |c| && j <= |s| && m == Max(0, i - off0) && m < |was| == |p| && off0 + m < i + j
    requires p == AfterRead(was, Joined(c, i, s, j), off0, m)
    requires ReadOutcome(p, p', m, m + Min(|p| - m, j - (off0 + m - i)), s, off0 + m - i, room, nn, err)
    ensures p' == AfterRead(was, Joined(c, i, s, j), off0, m + nn)
    ensures Counted(|was|, i + j, off0, j, room, m + nn, err, EOF)
  {
    var off := off0 + m - i;
    ReadPlain(p, p', m, m + Min(|p| - m, j - off), s, off, room, nn, err);
    var d := s[off..off + nn];
    JoinedStoreSlice(c, i, s, j, off, nn);
    ReadFurther(was, 0, Joined(c, i, s, j), off0, m, nn);
  }

  lemma ReadPlain(was: seq<Byte>, p: seq<Byte>, lo: nat, hi: nat, s: seq<Byte>, off: nat, room: nat, n: nat, err: Error)
    requires lo < hi <= |was| && off + (hi - lo) <= |s| && ReadOutcome(was, p, lo, hi, s, off, room, n, err)
    ensures n <= hi - lo && p == Splice(was, lo, s[off..off + n])
    ensures if err.IOError? then room < hi - lo else n == hi - lo && err == NoError
  {
  }

  lemma JoinedStoreSlice(c: seq<Byte>, i: nat, s: seq<Byte>, j: nat, off: nat, n: nat)
    requires i <= |c| && off + n <= j <= |s|
    ensures Joined(c, i, s, j)[i + off..i + off + n] == s[off..off + n]
  {
    JoinedIs(c, i, s, j);
  }
}

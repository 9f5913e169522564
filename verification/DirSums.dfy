/** What the sizes of a full recomputation are: sums over the files on disk, found by
    following their paths, with no recursion over directories. */
module DirSums {
  import opened Wrappers
  import opened DirSpec
  import opened DirWalk
  import opened DirExact

  /*** files by path ***/

  type Bytes = map<Path, nat>

  /** The entry of that name. */
  function Named(es: seq<Entry>, name: string): (r: Option<Entry>)
    ensures r.Some? ==> r.value in es && r.value.name == name
    ensures r.None? ==> forall i :: 0 <= i < |es| ==> es[i].name != name
  {
    if es == [] then None else if es[0].name == name then Some(es[0]) else Named(es[1..], name)
  }

  predicate Leads(fs: Fs, es: seq<Entry>) {
    forall i :: 0 <= i < |es| && es[i].Folder? ==> es[i].id in fs.dirs
  }

  /** The size of the file that path q leads to from a listing, if it is a file and no
      directory on the way down has been met before. */
  function FileAt(fs: Fs, es: seq<Entry>, met: set<nat>, q: Path): Option<nat>
    requires WellFormed(fs) && Leads(fs, es)
    decreases |q|
  {
    if q == [] then None
    else match Named(es, q[0])
      case None => None
      case Some(File(_, size)) => if |q| == 1 then Some(size) else None
      case Some(Folder(_, id, _)) => if id in met then None else FileAt(fs, fs.dirs[id], met + {id}, q[1..])
  }

  function Get(m: Bytes, k: Path): Option<nat> {
    if k in m then Some(m[k]) else None
  }

  /** From the storage root. */
  function FileOnDisk(fs: Fs, q: Path): Option<nat>
    requires WellFormed(fs)
  {
    FileAt(fs, fs.dirs[fs.top], {fs.top}, q)
  }

  /** m has the files at or below p, each with its size, and nothing else. */
  ghost predicate FilesBelow(fs: Fs, p: Path, m: Bytes)
    requires WellFormed(fs)
  {
    forall q :: Get(m, q) == if p <= q then FileOnDisk(fs, q) else None
  }

  /*** sums over finite maps ***/

  ghost function Sum(m: Bytes): nat
    decreases |m|
  {
    if m == map[] then 0
    else
      var q :| q in m;
      Fewer(m, q);
      m[q] + Sum(m - {q})
  }

  lemma Fewer(m: Bytes, q: Path)
    requires q in m
    ensures |m - {q}| < |m|
  {
    assert (m - {q}).Keys == m.Keys - {q};
  }

  lemma {:induction false} SumWithout(m: Bytes, q: Path)
    requires q in m
    ensures Sum(m) == m[q] + Sum(m - {q})
    decreases |m|
  {
    var x :| x in m && Sum(m) == m[x] + Sum(m - {x});
    if x != q {
      Fewer(m, x);
      Fewer(m, q);
      SumWithout(m - {x}, q);
      SumWithout(m - {q}, x);
      assert m - {x} - {q} == m - {q} - {x};
    }
  }

  lemma {:induction false} SumPlus(a: Bytes, b: Bytes)
    requires a.Keys !! b.Keys
    ensures Sum(a + b) == Sum(a) + Sum(b)
    decreases |b|
  {
    if b == map[] {
      assert a + b == a;
    } else {
      var q :| q in b;
      Fewer(b, q);
      SumPlus(a, b - {q});
      SumWithout(b, q);
      SumWithout(a + b, q);
      WithoutRight(a, b, q);
    }
  }

  lemma WithoutRight(a: Bytes, b: Bytes, q: Path)
    requires q !in a
    ensures a + b - {q} == a + (b - {q})
  {
  }

  lemma SumOne(q: Path, size: nat)
    ensures Sum(map[q := size]) == size
  {
    SumWithout(map[q := size], q);
    assert map[q := size] - {q} == map[];
  }

  /*** collecting the files ***/

  function Below(fs: Fs, p: Path, id: nat, anc: set<nat>): Bytes
    requires WellFormed(fs) && id in fs.dirs
    decreases |fs.dirs.Keys - anc|, 1, 0
  {
    BelowAll(fs, p, fs.dirs[id], anc)
  }

  function BelowAll(fs: Fs, p: Path, es: seq<Entry>, anc: set<nat>): Bytes
    requires WellFormed(fs) && Leads(fs, es)
    decreases |fs.dirs.Keys - anc|, 0, |es|
  {
    if es == [] then map[] else BelowOne(fs, p, es[0], anc) + BelowAll(fs, p, es[1..], anc)
  }

  function BelowOne(fs: Fs, p: Path, e: Entry, anc: set<nat>): Bytes
    requires WellFormed(fs) && (e.Folder? ==> e.id in fs.dirs)
    decreases |fs.dirs.Keys - anc|, 0, 0
  {
    match e
    case File(name, size) => map[p + [name] := size]
    case Folder(name, id, _) =>
      if id in anc then map[]
      else
        Shrinks(fs, id, anc);
        Below(fs, p + [name], id, anc + {id})
  }

  /** Exactly the files that paths lead to are collected. */
  lemma {:induction false} BelowIs(fs: Fs, p: Path, es: seq<Entry>, anc: set<nat>, k: Path)
    requires WellFormed(fs) && Leads(fs, es) && Distinct(es)
    ensures Get(BelowAll(fs, p, es, anc), k) == if p <= k then FileAt(fs, es, anc, k[|p|..]) else None
    decreases |fs.dirs.Keys - anc|, 0, |es|
  {
    if es != [] {
      BelowIs(fs, p, es[1..], anc, k);
      var e := es[0];
      if e.File? {
        if p <= k && |k| > |p| && k[|p|] == e.name {
          assert Named(es[1..], e.name).None?;
          assert |k| == |p| + 1 ==> k == p + [e.name];
        }
      } else {
        FolderIs(fs, p, e, anc, k);
        if p <= k && |k| > |p| && k[|p|] == e.name {
          assert Named(es[1..], e.name).None?;
        }
      }
    }
  }

  lemma {:induction false} FolderIs(fs: Fs, p: Path, e: Entry, anc: set<nat>, k: Path)
    requires WellFormed(fs) && e.Folder? && e.id in fs.dirs
    ensures Get(BelowOne(fs, p, e, anc), k) ==
      if p + [e.name] <= k && e.id !in anc then FileAt(fs, fs.dirs[e.id], anc + {e.id}, k[|p| + 1..]) else None
    decreases |fs.dirs.Keys - anc|, 0, 0
  {
    if e.id !in anc {
      Shrinks(fs, e.id, anc);
      BelowIs(fs, p + [e.name], fs.dirs[e.id], anc + {e.id}, k);
    }
  }

  /** The files of one listing. */
  function Own(p: Path, es: seq<Entry>): Bytes {
    if es == [] then map[]
    else (if es[0].File? then map[p + [es[0].name] := es[0].size] else map[]) + Own(p, es[1..])
  }

  lemma {:induction false} OwnIs(p: Path, es: seq<Entry>, k: Path)
    requires Distinct(es)
    ensures k in Own(p, es) ==> p <= k && |k| == |p| + 1
    ensures p <= k && |k| == |p| + 1 ==>
      Get(Own(p, es), k) ==
        match Named(es, k[|p|]) case Some(File(_, size)) => Some(size) case _ => None
  {
    if es != [] {
      OwnIs(p, es[1..], k);
      if p <= k && |k| == |p| + 1 && k[|p|] == es[0].name {
        assert k == p + [es[0].name];
        assert Named(es[1..], es[0].name).None?;
      }
    }
  }

  lemma {:induction false} OwnIsSum(p: Path, es: seq<Entry>)
    requires Distinct(es)
    ensures FileSum(es) == Sum(Own(p, es))
  {
    if es != [] {
      OwnIsSum(p, es[1..]);
      if es[0].File? {
        var k := p + [es[0].name];
        OwnIs(p, es[1..], k);
        assert Named(es[1..], es[0].name).None?;
        SumPlus(map[k := es[0].size], Own(p, es[1..]));
        SumOne(k, es[0].size);
      } else {
        assert map[] + Own(p, es[1..]) == Own(p, es[1..]);
      }
    }
  }

  /** One entry's files and those of the entries after it are different. */
  lemma BelowApart(fs: Fs, p: Path, es: seq<Entry>, anc: set<nat>)
    requires WellFormed(fs) && Leads(fs, es) && Distinct(es) && es != []
    ensures BelowOne(fs, p, es[0], anc).Keys !! BelowAll(fs, p, es[1..], anc).Keys
  {
    forall k | k in BelowOne(fs, p, es[0], anc) ensures k !in BelowAll(fs, p, es[1..], anc) {
      BelowIs(fs, p, es[1..], anc, k);
      if es[0].Folder? {
        FolderIs(fs, p, es[0], anc, k);
        assert k[|p|] == es[0].name;
      }
    }
  }

  /** The plain recursion adds up the files. */
  lemma {:induction false} TotalIsSum(fs: Fs, p: Path, id: nat, anc: set<nat>)
    requires WellFormed(fs) && id in fs.dirs
    ensures Total(fs, id, anc) == Sum(Below(fs, p, id, anc))
    decreases |fs.dirs.Keys - anc|, 1, 0
  {
    FoldersInFs(fs, id);
    AllIsSum(fs, p, fs.dirs[id], anc);
  }

  lemma {:induction false} AllIsSum(fs: Fs, p: Path, es: seq<Entry>, anc: set<nat>)
    requires WellFormed(fs) && Leads(fs, es) && Distinct(es) && InFs(fs, Folders(es))
    ensures FileSum(es) + TotalAll(fs, Folders(es), anc) == Sum(BelowAll(fs, p, es, anc))
    decreases |fs.dirs.Keys - anc|, 0, |es|
  {
    if es != [] {
      assert es[0].Folder? ==> Folders(es)[1..] == Folders(es[1..]) && Folders(es)[0] == es[0];
      assert es[0].File? ==> Folders(es) == Folders(es[1..]);
      AllIsSum(fs, p, es[1..], anc);
      BelowApart(fs, p, es, anc);
      SumPlus(BelowOne(fs, p, es[0], anc), BelowAll(fs, p, es[1..], anc));
      match es[0]
      case File(name, size) => SumOne(p + [name], size);
      case Folder(name, sub, _) =>
        if sub !in anc {
          Shrinks(fs, sub, anc);
          TotalIsSum(fs, p + [name], sub, anc + {sub});
        }
    }
  }

  /*** the nodes ***/

  /** What the directory at p and the directories met on the way to it have below p, as the
      walk comes to q, is what paths from the root lead to. */
  ghost predicate SeenFrom(fs: Fs, p: Path, id: nat, anc: set<nat>)
    requires WellFormed(fs) && id in fs.dirs
  {
    forall k :: p <= k ==> FileOnDisk(fs, k) == FileAt(fs, fs.dirs[id], anc, k[|p|..])
  }

  lemma SeenDown(fs: Fs, p: Path, id: nat, anc: set<nat>, e: Entry)
    requires WellFormed(fs) && id in fs.dirs && SeenFrom(fs, p, id, anc)
    requires e in fs.dirs[id] && e.Folder? && e.id in fs.dirs
    ensures e.id !in anc ==> SeenFrom(fs, p + [e.name], e.id, anc + {e.id})
    ensures e.id in anc ==> forall k :: p + [e.name] <= k ==> FileOnDisk(fs, k) == None
  {
    assert Named(fs.dirs[id], e.name) == Some(e);
    forall k | p + [e.name] <= k
      ensures FileOnDisk(fs, k) ==
        if e.id in anc then None else FileAt(fs, fs.dirs[e.id], anc + {e.id}, k[|p + [e.name]|..])
    {
      assert p <= k && k[|p|..][0] == e.name && k[|p|..][1..] == k[|p + [e.name]|..];
    }
  }

  lemma NoFiles(m: Bytes)
    requires forall k :: Get(m, k) == None
    ensures m == map[]
  {
    forall k ensures k !in m {
      assert Get(m, k) == None;
    }
  }

  lemma SameBytes(a: Bytes, b: Bytes)
    requires forall k :: Get(a, k) == Get(b, k)
    ensures a == b
  {
    forall k ensures (k in a <==> k in b) && (k in a ==> a[k] == b[k]) {
      assert Get(a, k) == Get(b, k);
    }
  }

  /** The files of m that are in the directory at q itself. */
  function Direct(m: Bytes, q: Path): Bytes {
    map k | k in m && |k| == |q| + 1 :: m[k]
  }

  lemma TopSums(fs: Fs, p: Path, id: nat, anc: set<nat>, m: Bytes)
    requires WellFormed(fs) && id in fs.dirs && SeenFrom(fs, p, id, anc) && FilesBelow(fs, p, m)
    ensures Size(Want(fs, p, id, anc)[p]) == Sum(m)
    ensures Want(fs, p, id, anc)[p].fileSum == Sum(Direct(m, p))
  {
    var es := fs.dirs[id];
    TotalIsSum(fs, p, id, anc);
    forall k ensures Get(m, k) == Get(Below(fs, p, id, anc), k) {
      BelowIs(fs, p, es, anc, k);
    }
    SameBytes(m, Below(fs, p, id, anc));
    OwnIsSum(p, es);
    forall k ensures Get(Direct(m, p), k) == Get(Own(p, es), k) {
      OwnIs(p, es, k);
      BelowIs(fs, p, es, anc, k);
    }
    SameBytes(Direct(m, p), Own(p, es));
  }

  lemma {:induction false} WantSums(fs: Fs, p: Path, id: nat, anc: set<nat>, q: Path, m: Bytes)
    requires WellFormed(fs) && id in fs.dirs && SeenFrom(fs, p, id, anc)
    requires q in Want(fs, p, id, anc) && FilesBelow(fs, q, m)
    ensures Size(Want(fs, p, id, anc)[q]) == Sum(m)
    ensures Want(fs, p, id, anc)[q].fileSum == Sum(Direct(m, q))
    decreases |fs.dirs.Keys - anc|
  {
    if q == p {
      TopSums(fs, p, id, anc, m);
    } else {
      var e := WantBelowOne(fs, p, id, anc, q);
      FoldersComplete(fs.dirs[id], e);
      SeenDown(fs, p, id, anc, e);
      if e.id in anc {
        assert q == p + [e.name];
        NoFiles(m);
        NoFiles(Direct(m, q));
      } else {
        Shrinks(fs, e.id, anc);
        WantSums(fs, p + [e.name], e.id, anc + {e.id}, q, m);
      }
    }
  }

  /** In a full recomputation the two sums of every directory add up to the sizes of all the
      files at or below it whose way down from the root meets no directory twice, and the
      first of them to the sizes of those in the directory itself. */
  lemma FullSums(fs: Fs, q: Path, m: Bytes)
    requires WellFormed(fs) && q in Full(fs) && FilesBelow(fs, q, m)
    ensures Full(fs)[q].fileSum + Full(fs)[q].directorySum == Sum(m)
    ensures Full(fs)[q].fileSum == Sum(Direct(m, q))
  {
    WantSums(fs, [], fs.top, {fs.top}, q, m);
  }

  /** There are finitely many such files. */
  lemma FilesExist(fs: Fs, q: Path)
    requires WellFormed(fs)
    ensures exists m :: FilesBelow(fs, q, m)
  {
    var all := Below(fs, [], fs.top, {fs.top});
    var m := map k | k in all && q <= k :: all[k];
    forall k ensures Get(m, k) == if q <= k then FileOnDisk(fs, k) else None {
      BelowIs(fs, [], fs.dirs[fs.top], {fs.top}, k);
    }
    assert FilesBelow(fs, q, m);
  }

  /*** reading ***/

  /** The walk from a listing has to look at path q: it is a directory on a way that meets
      none twice, or a link at whose end the walk would come to one again. */
  predicate LooksAt(fs: Fs, es: seq<Entry>, met: set<nat>, q: Path)
    requires WellFormed(fs) && Leads(fs, es)
    decreases |q|
  {
    q == [] ||
    match Named(es, q[0])
    case Some(Folder(_, id, link)) =>
      if id in met then link && |q| == 1 else LooksAt(fs, fs.dirs[id], met + {id}, q[1..])
    case _ => false
  }

  lemma {:induction false} AllReadableIff(fs: Fs, p: Path, folders: seq<Entry>, anc: set<nat>)
    requires WellFormed(fs) && InFs(fs, folders)
    ensures ReadableAll(fs, p, folders, anc) <==>
      forall i :: 0 <= i < |folders| ==> ReadableOne(fs, p, folders[i], anc)
    decreases |folders|
  {
    if folders != [] {
      AllReadableIff(fs, p, folders[..|folders| - 1], anc);
    }
  }

  /** Below a folder of the listing the walk looks at what it looks at there. */
  lemma LooksDown(fs: Fs, id: nat, anc: set<nat>, e: Entry, q: Path)
    requires WellFormed(fs) && id in fs.dirs && e in fs.dirs[id] && e.Folder? && e.id in fs.dirs
    ensures LooksAt(fs, fs.dirs[id], anc, [e.name] + q) ==
      if e.id in anc then e.link && q == [] else LooksAt(fs, fs.dirs[e.id], anc + {e.id}, q)
  {
    assert Named(fs.dirs[id], e.name) == Some(e);
    assert ([e.name] + q)[1..] == q;
  }

  lemma {:induction false} LooksReadable(fs: Fs, p: Path, id: nat, anc: set<nat>, q: Path)
    requires WellFormed(fs) && id in fs.dirs && Readable(fs, p, id, anc)
    requires LooksAt(fs, fs.dirs[id], anc, q)
    ensures p + q !in fs.broken
    decreases |q|
  {
    if q == [] {
      assert p + q == p;
    } else {
      var e := Named(fs.dirs[id], q[0]).value;
      FoldersInFs(fs, id);
      FoldersComplete(fs.dirs[id], e);
      AllReadableIff(fs, p, Folders(fs.dirs[id]), anc);
      assert ReadableOne(fs, p, e, anc);
      assert p + q == p + [e.name] + q[1..];
      if e.id in anc {
        assert p + q == p + [e.name];
      } else {
        LooksReadable(fs, p + [e.name], e.id, anc + {e.id}, q[1..]);
      }
    }
  }

  /** The walk succeeds exactly if nothing that it has to look at is unreadable. */
  lemma {:induction false} ReadableIff(fs: Fs, p: Path, id: nat, anc: set<nat>)
    requires WellFormed(fs) && id in fs.dirs
    ensures Readable(fs, p, id, anc) <==> forall q :: LooksAt(fs, fs.dirs[id], anc, q) ==> p + q !in fs.broken
    decreases |fs.dirs.Keys - anc|
  {
    if Readable(fs, p, id, anc) {
      forall q | LooksAt(fs, fs.dirs[id], anc, q) ensures p + q !in fs.broken {
        LooksReadable(fs, p, id, anc, q);
      }
    }
    if forall q :: LooksAt(fs, fs.dirs[id], anc, q) ==> p + q !in fs.broken {
      var folders := Folders(fs.dirs[id]);
      assert LooksAt(fs, fs.dirs[id], anc, []) && p + [] == p;
      FoldersInFs(fs, id);
      forall i | 0 <= i < |folders| ensures ReadableOne(fs, p, folders[i], anc) {
        FoldersComplete(fs.dirs[id], folders[i]);
        OneReadable(fs, p, id, anc, folders[i]);
      }
      AllReadableIff(fs, p, folders, anc);
    }
  }

  lemma {:induction false} OneReadable(fs: Fs, p: Path, id: nat, anc: set<nat>, e: Entry)
    requires WellFormed(fs) && id in fs.dirs && e in fs.dirs[id] && e.Folder? && e.id in fs.dirs
    requires forall q :: LooksAt(fs, fs.dirs[id], anc, q) ==> p + q !in fs.broken
    ensures ReadableOne(fs, p, e, anc)
    decreases |fs.dirs.Keys - anc|, 0
  {
    LooksDown(fs, id, anc, e, []);
    assert [e.name] + [] == [e.name];
    if e.id !in anc {
      var c := p + [e.name];
      forall q | LooksAt(fs, fs.dirs[e.id], anc + {e.id}, q) ensures c + q !in fs.broken {
        LooksDown(fs, id, anc, e, q);
        assert p + ([e.name] + q) == c + q;
      }
      Shrinks(fs, e.id, anc);
      ReadableIff(fs, c, e.id, anc + {e.id});
    }
  }
}

/** Directory trees as the local driver sees them, and the sizes that the size
    cache is meant to hold: the plain recursive definition. */
module DirSpec {
  import opened Wrappers

  /** Path elements below the storage root; the root itself is []. */
  type Path = seq<string>

  /** A symbolic link to a directory is a Folder with link set. */
  datatype Entry = File(name: string, size: nat) | Folder(name: string, id: nat, link: bool)

  /** Directories by identity (what os.SameFile compares), so that links can make
      cycles; reading or stat-ing a path in broken fails. */
  datatype Fs = Fs(dirs: map<nat, seq<Entry>>, top: nat, broken: set<Path>)

  datatype Node = Node(fileSum: nat, directorySum: nat, children: seq<string>)

  function Size(n: Node): nat {
    n.fileSum + n.directorySum
  }

  predicate Distinct(es: seq<Entry>) {
    forall i, j :: 0 <= i < j < |es| ==> es[i].name != es[j].name
  }

  predicate WellFormed(fs: Fs) {
    && fs.top in fs.dirs
    && forall id :: id in fs.dirs ==>
         && Distinct(fs.dirs[id])
         && forall i :: 0 <= i < |fs.dirs[id]| && fs.dirs[id][i].Folder? ==> fs.dirs[id][i].id in fs.dirs
  }

  function FileSum(es: seq<Entry>): nat {
    if es == [] then 0 else (if es[0].File? then es[0].size else 0) + FileSum(es[1..])
  }

  function Folders(es: seq<Entry>): (r: seq<Entry>)
    ensures forall i :: 0 <= i < |r| ==> r[i].Folder?
  {
    if es == [] then [] else (if es[0].Folder? then [es[0]] else []) + Folders(es[1..])
  }

  function Names(es: seq<Entry>): (r: seq<string>)
    ensures |r| == |es| && forall i :: 0 <= i < |r| ==> r[i] == es[i].name
  {
    seq(|es|, i requires 0 <= i < |es| => es[i].name)
  }

  /** One more entry. */
  lemma {:induction false} Snoc(es: seq<Entry>, f: Entry)
    ensures FileSum(es + [f]) == FileSum(es) + if f.File? then f.size else 0
    ensures Folders(es + [f]) == if f.Folder? then Folders(es) + [f] else Folders(es)
  {
    if es == [] {
      assert [] + [f] == [f];
    } else {
      assert (es + [f])[1..] == es[1..] + [f];
      Snoc(es[1..], f);
    }
  }

  lemma {:induction false} FoldersDistinct(es: seq<Entry>)
    requires Distinct(es)
    ensures Distinct(Folders(es))
  {
    if es != [] {
      FoldersDistinct(es[1..]);
      var r := Folders(es[1..]);
      forall i | 0 <= i < |r| ensures r[i].name != es[0].name {
        FoldersComplete(es[1..], r[i]);
      }
    }
  }

  lemma {:induction false} FoldersComplete(es: seq<Entry>, e: Entry)
    ensures e in Folders(es) <==> e in es && e.Folder?
  {
    if es != [] {
      FoldersComplete(es[1..], e);
      assert es == [es[0]] + es[1..];
    }
  }

  /*** resolution ***/

  /** The folder of that name in a listing. */
  function Find(es: seq<Entry>, name: string): (r: Option<Entry>)
    ensures r.Some? ==> r.value in es && r.value.Folder? && r.value.name == name
    ensures r.None? ==> forall e :: e in es && e.Folder? ==> e.name != name
  {
    if es == [] then None
    else if es[0].Folder? && es[0].name == name then Some(es[0])
    else Find(es[1..], name)
  }

  function ResolveFrom(fs: Fs, id: nat, p: Path): (r: Option<nat>)
    requires WellFormed(fs) && id in fs.dirs
    ensures r.Some? ==> r.value in fs.dirs
    decreases |p|
  {
    if p == [] then Some(id)
    else
      match Find(fs.dirs[id], p[0])
      case None => None
      case Some(e) => ResolveFrom(fs, e.id, p[1..])
  }

  function Resolve(fs: Fs, p: Path): (r: Option<nat>)
    requires WellFormed(fs)
    ensures r.Some? ==> r.value in fs.dirs
  {
    ResolveFrom(fs, fs.top, p)
  }

  lemma {:induction false} ResolveStepFrom(fs: Fs, id: nat, p: Path, name: string)
    requires WellFormed(fs) && id in fs.dirs
    ensures ResolveFrom(fs, id, p + [name]) ==
      match ResolveFrom(fs, id, p)
      case None => None
      case Some(d) => match Find(fs.dirs[d], name) case None => None case Some(e) => Some(e.id)
    decreases |p|
  {
    if p == [] {
      assert ([] + [name])[1..] == [];
    } else {
      assert (p + [name])[1..] == p[1..] + [name];
      var e := Find(fs.dirs[id], p[0]);
      if e.Some? {
        ResolveStepFrom(fs, e.value.id, p[1..], name);
      }
    }
  }

  /** A path resolves exactly when its parent does and lists its last element. */
  lemma ResolveStep(fs: Fs, p: Path, name: string)
    requires WellFormed(fs)
    ensures Resolve(fs, p + [name]) ==
      match Resolve(fs, p)
      case None => None
      case Some(d) => match Find(fs.dirs[d], name) case None => None case Some(e) => Some(e.id)
  {
    ResolveStepFrom(fs, fs.top, p, name);
  }

  lemma FindUnique(es: seq<Entry>, e: Entry)
    requires Distinct(es) && e in es && e.Folder?
    ensures Find(es, e.name) == Some(e)
  {
  }

  /** The entry e of the directory at p is what p's child path resolves to. */
  lemma ResolveChild(fs: Fs, p: Path, e: Entry)
    requires WellFormed(fs) && Resolve(fs, p).Some? && e in fs.dirs[Resolve(fs, p).value] && e.Folder?
    ensures Resolve(fs, p + [e.name]) == Some(e.id)
  {
    ResolveStep(fs, p, e.name);
    FindUnique(fs.dirs[Resolve(fs, p).value], e);
  }

  /*** sizes, by plain recursion ***/

  /** Bytes below directory id; a directory that is one of its own ancestors counts
      as empty. */
  function Total(fs: Fs, id: nat, anc: set<nat>): nat
    requires WellFormed(fs) && id in fs.dirs
    decreases |fs.dirs.Keys - anc|, 1, 0
  {
    FoldersInFs(fs, id);
    FileSum(fs.dirs[id]) + TotalAll(fs, Folders(fs.dirs[id]), anc)
  }

  function TotalAll(fs: Fs, folders: seq<Entry>, anc: set<nat>): nat
    requires WellFormed(fs) && InFs(fs, folders)
    decreases |fs.dirs.Keys - anc|, 0, |folders|
  {
    if folders == [] then 0 else TotalOne(fs, folders[0], anc) + TotalAll(fs, folders[1..], anc)
  }

  function TotalOne(fs: Fs, e: Entry, anc: set<nat>): nat
    requires WellFormed(fs) && e.Folder? && e.id in fs.dirs
    decreases |fs.dirs.Keys - anc|, 0, 0
  {
    if e.id in anc then 0
    else
      Shrinks(fs, e.id, anc);
      Total(fs, e.id, anc + {e.id})
  }

  predicate InFs(fs: Fs, folders: seq<Entry>) {
    forall i :: 0 <= i < |folders| ==> folders[i].Folder? && folders[i].id in fs.dirs
  }

  lemma Shrinks(fs: Fs, id: nat, anc: set<nat>)
    requires id in fs.dirs && id !in anc
    ensures |fs.dirs.Keys - (anc + {id})| < |fs.dirs.Keys - anc|
  {
    assert fs.dirs.Keys - (anc + {id}) == fs.dirs.Keys - anc - {id};
  }

  type Sizes = map<Path, Node>

  /** The nodes of the directory at p and of everything below it. */
  function Want(fs: Fs, p: Path, id: nat, anc: set<nat>): Sizes
    requires WellFormed(fs) && id in fs.dirs
    decreases |fs.dirs.Keys - anc|, 1, 0
  {
    FoldersInFs(fs, id);
    var folders := Folders(fs.dirs[id]);
    WantAll(fs, p, folders, anc)[p := Node(FileSum(fs.dirs[id]), TotalAll(fs, folders, anc), Names(folders))]
  }

  function WantAll(fs: Fs, p: Path, folders: seq<Entry>, anc: set<nat>): Sizes
    requires WellFormed(fs) && InFs(fs, folders)
    decreases |fs.dirs.Keys - anc|, 0, |folders|
  {
    if folders == [] then map[]
    else WantAll(fs, p, folders[..|folders| - 1], anc) + WantOne(fs, p, folders[|folders| - 1], anc)
  }

  function WantOne(fs: Fs, p: Path, e: Entry, anc: set<nat>): Sizes
    requires WellFormed(fs) && e.Folder? && e.id in fs.dirs
    decreases |fs.dirs.Keys - anc|, 0, 0
  {
    if e.id in anc then map[p + [e.name] := Node(0, 0, [])]
    else
      Shrinks(fs, e.id, anc);
      Want(fs, p + [e.name], e.id, anc + {e.id})
  }

  /** Everything that has to be read below p can be. */
  predicate Readable(fs: Fs, p: Path, id: nat, anc: set<nat>)
    requires WellFormed(fs) && id in fs.dirs
    decreases |fs.dirs.Keys - anc|, 1, 0
  {
    FoldersInFs(fs, id);
    p !in fs.broken && ReadableAll(fs, p, Folders(fs.dirs[id]), anc)
  }

  predicate ReadableAll(fs: Fs, p: Path, folders: seq<Entry>, anc: set<nat>)
    requires WellFormed(fs) && InFs(fs, folders)
    decreases |fs.dirs.Keys - anc|, 0, |folders|
  {
    folders == [] ||
    (ReadableAll(fs, p, folders[..|folders| - 1], anc) && ReadableOne(fs, p, folders[|folders| - 1], anc))
  }

  predicate ReadableOne(fs: Fs, p: Path, e: Entry, anc: set<nat>)
    requires WellFormed(fs) && e.Folder? && e.id in fs.dirs
    decreases |fs.dirs.Keys - anc|, 0, 0
  {
    && (e.link ==> p + [e.name] !in fs.broken)
    && (e.id !in anc ==>
          (Shrinks(fs, e.id, anc);
           Readable(fs, p + [e.name], e.id, anc + {e.id})))
  }

  lemma FoldersInFs(fs: Fs, id: nat)
    requires WellFormed(fs) && id in fs.dirs
    ensures InFs(fs, Folders(fs.dirs[id]))
  {
    forall i | 0 <= i < |Folders(fs.dirs[id])| ensures Folders(fs.dirs[id])[i].id in fs.dirs {
      FoldersComplete(fs.dirs[id], Folders(fs.dirs[id])[i]);
    }
  }
}

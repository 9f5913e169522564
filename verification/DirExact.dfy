/** When the nodes of a size cache agree with the directories they describe, and
    how much of that survives a change on disk. */
module DirExact {
  import opened Wrappers
  import opened DirSpec
  import opened DirWalk

  /*** local exactness ***/

  function Listing(fs: Fs, p: Path): seq<Entry>
    requires WellFormed(fs) && Resolve(fs, p).Some?
  {
    fs.dirs[Resolve(fs, p).value]
  }

  function Subdirs(fs: Fs, p: Path): seq<string>
    requires WellFormed(fs) && Resolve(fs, p).Some?
  {
    Names(Folders(Listing(fs, p)))
  }

  /** The node of p is what its listing and its children's nodes say. */
  predicate LocalExact(fs: Fs, data: Sizes, p: Path)
    requires WellFormed(fs)
  {
    && Resolve(fs, p).Some?
    && p in data
    && ChildrenIn(data, p, Subdirs(fs, p))
    && data[p] == Node(FileSum(Listing(fs, p)), ChildSum(data, p, Subdirs(fs, p)), Subdirs(fs, p))
  }

  lemma {:induction false} ChildSumSame(d: Sizes, d': Sizes, p: Path, names: seq<string>)
    requires ChildrenIn(d, p, names)
    requires forall i :: 0 <= i < |names| ==> p + [names[i]] in d' && d'[p + [names[i]]] == d[p + [names[i]]]
    ensures ChildrenIn(d', p, names)
    ensures ChildSum(d', p, names) == ChildSum(d, p, names)
    decreases |names|
  {
    if names != [] {
      assert p + [names[0]] in d' && d'[p + [names[0]]] == d[p + [names[0]]];
      assert forall i :: 0 <= i < |names[1..]| ==> names[1..][i] == names[i + 1];
      ChildSumSame(d, d', p, names[1..]);
    }
  }

  /** Exactness of p only depends on p's node and its children's. */
  lemma LocalExactSame(fs: Fs, d: Sizes, d': Sizes, p: Path)
    requires WellFormed(fs) && LocalExact(fs, d, p)
    requires p in d' && d'[p] == d[p]
    requires forall i :: 0 <= i < |d[p].children| ==>
      p + [d[p].children[i]] in d' && d'[p + [d[p].children[i]]] == d[p + [d[p].children[i]]]
    ensures LocalExact(fs, d', p)
  {
    ChildSumSame(d, d', p, Subdirs(fs, p));
  }

  /*** resolution of names ***/

  lemma {:induction false} FindNames(es: seq<Entry>, n: string)
    ensures Find(es, n).Some? <==> n in Names(Folders(es))
  {
    if es != [] {
      FindNames(es[1..], n);
      if es[0].Folder? {
        assert Names(Folders(es)) == [es[0].name] + Names(Folders(es[1..]));
      } else {
        assert Folders(es) == Folders(es[1..]);
      }
    }
  }

  /** A child path resolves exactly when its name is among the parent's folders. */
  lemma ResolveNames(fs: Fs, p: Path, n: string)
    requires WellFormed(fs)
    ensures Resolve(fs, p + [n]).Some? <==> Resolve(fs, p).Some? && n in Subdirs(fs, p)
  {
    ResolveStep(fs, p, n);
    if Resolve(fs, p).Some? {
      FindNames(Listing(fs, p), n);
    }
  }

  function Parent(q: Path): Path
    requires q != []
  {
    q[..|q| - 1]
  }

  function Last(q: Path): string
    requires q != []
  {
    q[|q| - 1]
  }

  lemma Split(q: Path)
    requires q != []
    ensures Parent(q) + [Last(q)] == q
  {
  }

  /*** directories that contain themselves ***/

  lemma ParentResolves(fs: Fs, q: Path)
    requires WellFormed(fs) && q != [] && Resolve(fs, q).Some?
    ensures Resolve(fs, Parent(q)).Some?
  {
    Split(q);
    ResolveNames(fs, Parent(q), Last(q));
  }

  /** The directories on the way to q, the one at q included. */
  function Leading(fs: Fs, q: Path): set<nat>
    requires WellFormed(fs) && Resolve(fs, q).Some?
    decreases |q|
  {
    if q == [] then {fs.top}
    else
      ParentResolves(fs, q);
      Leading(fs, Parent(q)) + {Resolve(fs, q).value}
  }

  /** The directory at q is also one on the way to q: links can do that. */
  predicate Loops(fs: Fs, q: Path)
    requires WellFormed(fs)
  {
    q != [] && Resolve(fs, q).Some? &&
    (ParentResolves(fs, q);
     Resolve(fs, q).value in Leading(fs, Parent(q)))
  }

  /** No directory contains itself. */
  ghost predicate Acyclic(fs: Fs)
    requires WellFormed(fs)
  {
    forall q :: !Loops(fs, q)
  }

  lemma {:induction false} LeadingAt(fs: Fs, q: Path, a: nat)
    requires WellFormed(fs) && Resolve(fs, q).Some?
    ensures a in Leading(fs, q) <==> exists k :: 0 <= k <= |q| && Resolve(fs, q[..k]) == Some(a)
    decreases |q|
  {
    assert q[..|q|] == q;
    if q != [] {
      ParentResolves(fs, q);
      LeadingAt(fs, Parent(q), a);
      assert forall k :: 0 <= k < |q| ==> q[..k] == Parent(q)[..k];
    }
  }

  /** A path loops exactly when it leads to the same directory as a path above it. */
  lemma LoopsIff(fs: Fs, q: Path)
    requires WellFormed(fs) && Resolve(fs, q).Some?
    ensures Loops(fs, q) <==> exists k :: 0 <= k < |q| && Resolve(fs, q[..k]) == Resolve(fs, q)
  {
    if q != [] {
      ParentResolves(fs, q);
      LeadingAt(fs, Parent(q), Resolve(fs, q).value);
      assert forall k :: 0 <= k < |q| ==> q[..k] == Parent(q)[..k];
    }
  }

  /** A way without loops passes through different directories only. */
  lemma {:induction false} ShortWay(fs: Fs, q: Path)
    requires WellFormed(fs) && Resolve(fs, q).Some? && forall k :: 0 <= k < |q| ==> !Loops(fs, q[..k])
    ensures Leading(fs, q) <= fs.dirs.Keys && |Leading(fs, q)| == |q| + if Loops(fs, q) then 0 else 1
    ensures |q| <= |fs.dirs.Keys|
    decreases |q|
  {
    if q != [] {
      ParentResolves(fs, q);
      assert forall k :: 0 <= k < |q| - 1 ==> Parent(q)[..k] == q[..k];
      assert q[..|q| - 1] == Parent(q);
      ShortWay(fs, Parent(q));
      assert Loops(fs, q) ==> Leading(fs, q) == Leading(fs, Parent(q));
    }
    Fits(Leading(fs, q), fs.dirs.Keys);
  }

  lemma {:induction false} Fits(a: set<nat>, b: set<nat>)
    requires a <= b
    ensures |a| <= |b|
  {
    assert |b - a| + |a| == |b| by {
      assert a + (b - a) == b;
    }
  }

  /** An empty node stands where the walk came to a directory it was already inside. */
  ghost predicate Cut(fs: Fs, data: Sizes, q: Path)
    requires WellFormed(fs)
  {
    Loops(fs, q) && q in data && data[q] == Node(0, 0, [])
  }

  ghost predicate Settled(fs: Fs, data: Sizes, q: Path)
    requires WellFormed(fs)
  {
    LocalExact(fs, data, q) || Cut(fs, data, q)
  }

  lemma SettledChildren(fs: Fs, d: Sizes, q: Path)
    requires WellFormed(fs) && Settled(fs, d, q)
    ensures ChildrenIn(d, q, d[q].children)
    ensures forall i :: 0 <= i < |d[q].children| ==> d[q].children[i] in Subdirs(fs, q)
  {
  }

  lemma SettledSame(fs: Fs, d: Sizes, d': Sizes, p: Path)
    requires WellFormed(fs) && Settled(fs, d, p)
    requires p in d' && d'[p] == d[p]
    requires forall i :: 0 <= i < |d[p].children| ==>
      p + [d[p].children[i]] in d' && d'[p + [d[p].children[i]]] == d[p + [d[p].children[i]]]
    ensures Settled(fs, d', p)
  {
    if LocalExact(fs, d, p) {
      LocalExactSame(fs, d, d', p);
    }
  }

  /*** soundness up to a set of suspects ***/

  predicate Above(D: set<Path>, q: Path) {
    exists d :: d in D && q <= d
  }

  /** What holds of q while only the directories in D (and the sums above them) may
      be out of date. */
  ghost predicate SoundAt(fs: Fs, data: Sizes, D: set<Path>, q: Path)
    requires WellFormed(fs)
  {
    q in data ==>
      // the recorded directories form a tree, whose edges are the children lists
      && (q != [] ==> Parent(q) in data)
      && (q != [] ==> Last(q) in data[Parent(q)].children || (Parent(q) in D && Resolve(fs, q).Some?))
      // away from suspects, nodes are exact, or cut where a directory contains itself
      && (Resolve(fs, q).Some? && !Above(D, q) ==> Settled(fs, data, q))
      // a directory that is gone is gone from a suspect
      && (q != [] && Resolve(fs, Parent(q)).Some? && Resolve(fs, q).None? ==> Parent(q) in D)
  }

  predicate Listed(data: Sizes, q: Path) {
    q in data ==> ChildrenIn(data, q, data[q].children)
  }

  ghost predicate Sound(fs: Fs, data: Sizes, D: set<Path>)
    requires WellFormed(fs)
  {
    (forall q :: SoundAt(fs, data, D, q)) && (forall q :: Listed(data, q))
  }

  /** Sound, except that x may list children that have just been dropped. */
  ghost predicate SoundBut(fs: Fs, data: Sizes, D: set<Path>, x: Path)
    requires WellFormed(fs)
  {
    (forall q :: SoundAt(fs, data, D, q)) && (forall q :: q != x ==> Listed(data, q))
  }

  /** More suspects are harmless. */
  lemma SoundMore(fs: Fs, data: Sizes, D: set<Path>, D': set<Path>)
    requires WellFormed(fs) && Sound(fs, data, D) && D <= D'
    ensures Sound(fs, data, D')
  {
    forall q ensures SoundAt(fs, data, D', q) {
      assert SoundAt(fs, data, D, q);
    }
  }

  lemma {:induction false} AncestorsIn(fs: Fs, data: Sizes, D: set<Path>, q: Path, k: int)
    requires WellFormed(fs) && (forall q :: SoundAt(fs, data, D, q)) && q in data && 0 <= k <= |q|
    ensures q[..k] in data
    decreases |q| - k
  {
    if k < |q| {
      AncestorsIn(fs, data, D, q, k + 1);
      assert SoundAt(fs, data, D, q[..k + 1]);
      assert Parent(q[..k + 1]) == q[..k];
    } else {
      assert q[..k] == q;
    }
  }

  lemma PrefixIn(fs: Fs, data: Sizes, D: set<Path>, p: Path, q: Path)
    requires WellFormed(fs) && (forall q :: SoundAt(fs, data, D, q)) && q in data && p <= q
    ensures p in data
  {
    AncestorsIn(fs, data, D, q, |p|);
    assert q[..|p|] == p;
  }

  /** What is not recorded has nothing recorded below it. */
  lemma NothingBelow(fs: Fs, data: Sizes, D: set<Path>, p: Path)
    requires WellFormed(fs) && (forall q :: SoundAt(fs, data, D, q)) && p !in data
    ensures NoneBelow(data, p)
  {
    forall k | k in data ensures !(p <= k) {
      if p <= k {
        PrefixIn(fs, data, D, p, k);
        assert false;
      }
    }
  }

  /** A path that leads nowhere leads nowhere further down. */
  lemma {:induction false} UnresolvedBelow(fs: Fs, p: Path, q: Path)
    requires WellFormed(fs) && Resolve(fs, p).None? && p <= q
    ensures Resolve(fs, q).None?
    decreases |q|
  {
    if |p| < |q| {
      UnresolvedBelow(fs, p, Parent(q));
      Split(q);
      ResolveNames(fs, Parent(q), Last(q));
    } else {
      assert p == q;
    }
  }

  /*** a freshly computed subtree is settled ***/

  /** In the nodes wanted for p, the subtree of each folder appears as wanted. */
  lemma WantContains(fs: Fs, p: Path, folders: seq<Entry>, anc: set<nat>, i: int)
    requires WellFormed(fs) && InFs(fs, folders) && Distinct(folders) && 0 <= i < |folders|
    ensures forall k :: k in WantOne(fs, p, folders[i], anc) ==>
      k in WantAll(fs, p, folders, anc) && WantAll(fs, p, folders, anc)[k] == WantOne(fs, p, folders[i], anc)[k]
    decreases |folders|
  {
    var init := folders[..|folders| - 1];
    LastApart(fs, p, folders, anc);
    if i < |init| {
      WantContains(fs, p, init, anc, i);
    }
  }

  lemma WantAllFrom(fs: Fs, p: Path, folders: seq<Entry>, anc: set<nat>, k: Path) returns (i: int)
    requires WellFormed(fs) && InFs(fs, folders) && k in WantAll(fs, p, folders, anc)
    ensures 0 <= i < |folders| && k in WantOne(fs, p, folders[i], anc)
    decreases |folders|
  {
    var init := folders[..|folders| - 1];
    if k in WantOne(fs, p, folders[|folders| - 1], anc) {
      i := |folders| - 1;
    } else {
      i := WantAllFrom(fs, p, init, anc, k);
    }
  }

  lemma ChildLeading(fs: Fs, p: Path, id: nat, e: Entry)
    requires WellFormed(fs) && Resolve(fs, p) == Some(id) && e in Folders(fs.dirs[id]) && e.Folder?
    ensures Resolve(fs, p + [e.name]) == Some(e.id)
    ensures Leading(fs, p + [e.name]) == Leading(fs, p) + {e.id}
    ensures e.id in Leading(fs, p) <==> Loops(fs, p + [e.name])
  {
    assert Resolve(fs, p + [e.name]) == Some(e.id) by {
      FoldersComplete(fs.dirs[id], e);
      ResolveChild(fs, p, e);
    }
    assert Parent(p + [e.name]) == p;
  }

  /** Every wanted node is exact or cut, and is wanted because its path resolves. */
  lemma {:induction false} WantSettled(fs: Fs, p: Path, id: nat, anc: set<nat>, q: Path)
    requires WellFormed(fs) && Resolve(fs, p) == Some(id) && anc <= Leading(fs, p)
    requires q in Want(fs, p, id, anc)
    ensures Resolve(fs, q).Some? && Settled(fs, Want(fs, p, id, anc), q)
    decreases |fs.dirs.Keys - anc|
  {
    if q == p {
      WantExactTop(fs, p, id, anc);
    } else {
      var e := WantBelowOne(fs, p, id, anc, q);
      var c := p + [e.name];
      ChildLeading(fs, p, id, e);
      if e.id in anc {
        assert q == c;
      } else {
        Shrinks(fs, e.id, anc);
        WantSettled(fs, c, e.id, anc + {e.id}, q);
        SubtreeSettled(fs, WantOne(fs, p, e, anc), Want(fs, p, id, anc), q);
      }
    }
  }

  /** Below p, every wanted node belongs to the subtree of one of p's folders. */
  lemma WantBelowOne(fs: Fs, p: Path, id: nat, anc: set<nat>, q: Path) returns (e: Entry)
    requires WellFormed(fs) && id in fs.dirs && q in Want(fs, p, id, anc) && q != p
    ensures e in Folders(fs.dirs[id]) && e.Folder? && e.id in fs.dirs && q in WantOne(fs, p, e, anc)
    ensures forall k :: k in WantOne(fs, p, e, anc) ==>
      k in Want(fs, p, id, anc) && Want(fs, p, id, anc)[k] == WantOne(fs, p, e, anc)[k]
  {
    var folders := Folders(fs.dirs[id]);
    FoldersInFs(fs, id);
    FoldersDistinct(fs.dirs[id]);
    var i := WantAllFrom(fs, p, folders, anc, q);
    e := folders[i];
    WantContains(fs, p, folders, anc, i);
    WantOneBelow(fs, p, e, anc);
    WantOverlay(WantAll(fs, p, folders, anc), WantOne(fs, p, e, anc), p, e.name,
                Node(FileSum(fs.dirs[id]), TotalAll(fs, folders, anc), Names(folders)));
  }

  lemma WantOverlay(all: Sizes, one: Sizes, p: Path, name: string, n: Node)
    requires forall k :: k in one ==> k in all && all[k] == one[k] && p + [name] <= k
    ensures forall k :: k in one ==> k in all[p := n] && all[p := n][k] == one[k]
  {
    assert p !in one;
  }

  lemma WantExactTop(fs: Fs, p: Path, id: nat, anc: set<nat>)
    requires WellFormed(fs) && Resolve(fs, p) == Some(id)
    ensures LocalExact(fs, Want(fs, p, id, anc), p)
  {
    var folders := Folders(fs.dirs[id]);
    var want := Want(fs, p, id, anc);
    FoldersInFs(fs, id);
    FoldersDistinct(fs.dirs[id]);
    forall i | 0 <= i < |folders|
      ensures p + [folders[i].name] in want && Size(want[p + [folders[i].name]]) == TotalOne(fs, folders[i], anc)
    {
      WantAllAt(fs, p, folders, anc, i);
    }
    ChildSumIsTotal(fs, p, folders, anc, want);
  }

  /** What is settled in a subtree is settled in a map that contains it. */
  lemma SubtreeSettled(fs: Fs, sub: Sizes, d: Sizes, q: Path)
    requires WellFormed(fs) && Settled(fs, sub, q)
    requires forall k :: k in sub ==> k in d && d[k] == sub[k]
    ensures Settled(fs, d, q)
  {
    SettledChildren(fs, sub, q);
    SettledSame(fs, sub, d, q);
  }

  /*** the steps of a refresh ***/

  /** Entering a directory that its parent, a suspect, does not record yet. */
  lemma WantSound(fs: Fs, data: Sizes, D: set<Path>, p: Path, id: nat, x: Path)
    requires WellFormed(fs) && SoundBut(fs, data, D, x)
    requires p != [] && p !in data && Parent(p) in data && Parent(p) in D && Resolve(fs, p) == Some(id)
    ensures SoundBut(fs, data + Want(fs, p, id, {id}), D, x)
    ensures Sound(fs, data, D) ==> Sound(fs, data + Want(fs, p, id, {id}), D)
  {
    var want := Want(fs, p, id, {id});
    var d := data + want;
    WantBelow(fs, p, id, {id});
    NothingBelow(fs, data, D, p);
    forall q ensures SoundAt(fs, d, D, q) {
      WantSoundAt(fs, data, D, p, id, q);
    }
    forall q ensures Listed(d, q) || !Listed(data, q) {
      if q in want {
        WantLocal(fs, p, id, q);
      }
    }
  }

  /** A directory's nodes, the walk having started at it. */
  lemma WantLocal(fs: Fs, p: Path, id: nat, q: Path)
    requires WellFormed(fs) && Resolve(fs, p) == Some(id) && q in Want(fs, p, id, {id})
    ensures Resolve(fs, q).Some? && Settled(fs, Want(fs, p, id, {id}), q)
  {
    assert {id} <= Leading(fs, p);
    WantSettled(fs, p, id, {id}, q);
  }

  lemma WantSoundAt(fs: Fs, data: Sizes, D: set<Path>, p: Path, id: nat, q: Path)
    requires WellFormed(fs) && (forall q :: SoundAt(fs, data, D, q)) && NoneBelow(data, p)
    requires p != [] && Parent(p) in data && Parent(p) in D && Resolve(fs, p) == Some(id)
    ensures SoundAt(fs, data + Want(fs, p, id, {id}), D, q)
  {
    var want := Want(fs, p, id, {id});
    var d := data + want;
    WantBelow(fs, p, id, {id});
    assert want.Keys !! data.Keys;
    if q in want {
      WantLocal(fs, p, id, q);
      SubtreeSettled(fs, want, d, q);
      if q != p {
        WantParent(fs, p, id, {id}, q);
      }
    } else if q in data {
      assert SoundAt(fs, data, D, q);
      if Resolve(fs, q).Some? && !Above(D, q) {
        SettledChildren(fs, data, q);
        SettledSame(fs, data, d, q);
      }
    }
  }

  /** The wanted nodes below p are listed by their parents, which are among them. */
  lemma {:induction false} WantParent(fs: Fs, p: Path, id: nat, anc: set<nat>, q: Path)
    requires WellFormed(fs) && id in fs.dirs && q in Want(fs, p, id, anc) && q != p
    ensures q != [] && Parent(q) in Want(fs, p, id, anc)
    ensures Last(q) in Want(fs, p, id, anc)[Parent(q)].children
    decreases |fs.dirs.Keys - anc|
  {
    var e := WantBelowOne(fs, p, id, anc, q);
    WantBelow(fs, p, id, anc);
    WantOneBelow(fs, p, e, anc);
    if q == p + [e.name] {
      assert Parent(q) == p && Last(q) == e.name;
      var i :| 0 <= i < |Folders(fs.dirs[id])| && Folders(fs.dirs[id])[i] == e;
      assert Names(Folders(fs.dirs[id]))[i] == e.name;
    } else {
      Shrinks(fs, e.id, anc);
      WantParent(fs, p + [e.name], e.id, anc + {e.id}, q);
    }
  }

  /** Dropping the subtree of a child that is gone from p. */
  lemma DropSound(fs: Fs, data: Sizes, D: set<Path>, p: Path, c: string)
    requires WellFormed(fs) && SoundBut(fs, data, D, p) && p in D && Resolve(fs, p + [c]).None?
    ensures SoundBut(fs, map k | k in data && !(p + [c] <= k) :: data[k], D, p)
  {
    var gone := p + [c];
    var d := map k | k in data && !(gone <= k) :: data[k];
    forall q ensures SoundAt(fs, d, D, q) {
      assert SoundAt(fs, data, D, q);
      if q in d && Resolve(fs, q).Some? && !Above(D, q) {
        SettledChildren(fs, data, q);
        forall j | 0 <= j < |data[q].children|
          ensures q + [data[q].children[j]] in d
        {
          var n := data[q].children[j];
          ResolveNames(fs, q, n);
          if gone <= q + [n] {
            UnresolvedBelow(fs, gone, q + [n]);
            assert false;
          }
        }
        SettledSame(fs, data, d, q);
      }
    }
    forall q | q != p ensures Listed(d, q) {
      assert Listed(data, q);
      if q in d {
        forall j | 0 <= j < |data[q].children| ensures q + [data[q].children[j]] in d {
          if gone <= q + [data[q].children[j]] {
            OnlyParent(p, c, q, data[q].children[j]);
            assert false;
          }
        }
      }
    }
  }

  /** A path that does not lie below gone but has a child that does is gone's parent. */
  lemma OnlyParent(p: Path, c: string, q: Path, n: string)
    requires p + [c] <= q + [n] && !(p + [c] <= q)
    ensures q == p
  {
    assert |q + [n]| == |p + [c]|;
    assert q == (q + [n])[..|q|] && p == (p + [c])[..|p|];
  }

  /** The directories on the way to p, from the k-th on, p included. */
  function Way(p: Path, k: nat): set<Path> {
    set j | k <= j <= |p| :: p[..j]
  }

  function NextSuspects(D: set<Path>, p: Path): set<Path> {
    D - {p} + if p == [] then {} else {Parent(p)}
  }

  /** Writing p's own node, all its children being right, moves the suspicion up. */
  lemma WriteSound(fs: Fs, data: Sizes, D: set<Path>, p: Path)
    requires WellFormed(fs) && SoundBut(fs, data, D, p) && p in D && p in data && Resolve(fs, p).Some?
    requires ChildrenIn(data, p, Subdirs(fs, p))
    requires forall c :: c in data[p].children && c !in Subdirs(fs, p) ==> p + [c] !in data
    ensures var names := Subdirs(fs, p);
      var d := data[p := Node(FileSum(Listing(fs, p)), ChildSum(data, p, names), names)];
      Sound(fs, d, NextSuspects(D, p)) && LocalExact(fs, d, p)
  {
    var names := Subdirs(fs, p);
    var d := data[p := Node(FileSum(Listing(fs, p)), ChildSum(data, p, names), names)];
    ChildSumSame(data, d, p, names);
    forall q ensures SoundAt(fs, d, NextSuspects(D, p), q) {
      WriteSoundAt(fs, data, D, p, q);
    }
    forall q ensures Listed(d, q) {
      assert q != p ==> Listed(data, q);
    }
  }

  lemma WriteSoundAt(fs: Fs, data: Sizes, D: set<Path>, p: Path, q: Path)
    requires WellFormed(fs) && (forall q :: SoundAt(fs, data, D, q)) && p in D && p in data && Resolve(fs, p).Some?
    requires ChildrenIn(data, p, Subdirs(fs, p))
    requires forall c :: c in data[p].children && c !in Subdirs(fs, p) ==> p + [c] !in data
    ensures var names := Subdirs(fs, p);
      SoundAt(fs, data[p := Node(FileSum(Listing(fs, p)), ChildSum(data, p, names), names)], NextSuspects(D, p), q)
  {
    var names := Subdirs(fs, p);
    var d := data[p := Node(FileSum(Listing(fs, p)), ChildSum(data, p, names), names)];
    var D' := NextSuspects(D, p);
    assert SoundAt(fs, data, D, q);
    if q in d {
      if q != [] {
        Split(q);
        ResolveNames(fs, Parent(q), Last(q));
      }
      if Resolve(fs, q).Some? && !Above(D', q) {
        if q == p {
          ChildSumSame(data, d, p, names);
        } else {
          NotAbove(D, p, q);
          SettledChildren(fs, data, q);
          forall j | 0 <= j < |data[q].children|
            ensures q + [data[q].children[j]] in d && d[q + [data[q].children[j]]] == data[q + [data[q].children[j]]]
          {
            assert Above(NextSuspects(D, p), q) || Parent(q + [data[q].children[j]]) == q;
          }
          SettledSame(fs, data, d, q);
        }
      }
    }
  }

  /** Away from the new suspects and from p, one is away from the old ones. */
  lemma NotAbove(D: set<Path>, p: Path, q: Path)
    requires !Above(NextSuspects(D, p), q) && q != p
    ensures !Above(D, q)
  {
    forall d | d in D ensures !(q <= d) {
      if d != p {
        assert d in NextSuspects(D, p);
      } else if p != [] {
        assert Parent(p) in NextSuspects(D, p);
      }
    }
  }

  /*** exact maps ***/

  ghost predicate Exact(fs: Fs, data: Sizes)
    requires WellFormed(fs)
  {
    [] in data && Sound(fs, data, {})
  }

  /** The nodes of a full recomputation. */
  function Full(fs: Fs): Sizes
    requires WellFormed(fs)
  {
    Want(fs, [], fs.top, {fs.top})
  }

  lemma FullExact(fs: Fs)
    requires WellFormed(fs)
    ensures Exact(fs, Full(fs))
  {
    var want := Full(fs);
    WantBelow(fs, [], fs.top, {fs.top});
    forall q ensures SoundAt(fs, want, {}, q) && Listed(want, q) {
      if q in want {
        WantLocal(fs, [], fs.top, q);
        SettledChildren(fs, want, q);
        if q != [] {
          WantParent(fs, [], fs.top, {fs.top}, q);
        }
      }
    }
  }

  /** What is recorded exists, and what does not contain itself is recorded rightly. */
  lemma {:induction false} ExactExists(fs: Fs, data: Sizes, q: Path)
    requires WellFormed(fs) && Exact(fs, data) && q in data
    ensures Resolve(fs, q).Some? && Settled(fs, data, q)
    decreases |q|
  {
    assert SoundAt(fs, data, {}, q) && !Above({}, q);
    if q != [] {
      ExactExists(fs, data, Parent(q));
    }
  }

  /*** what a full recomputation makes of directories that contain themselves ***/

  /** A path that passes no loop on its way is reached by the walk. */
  lemma {:induction false} Reached(fs: Fs, p: Path, id: nat, anc: set<nat>, q: Path)
    requires WellFormed(fs) && Resolve(fs, p) == Some(id) && anc == Leading(fs, p)
    requires p <= q && Resolve(fs, q).Some? && forall k :: |p| < k < |q| ==> !Loops(fs, q[..k])
    ensures q in Want(fs, p, id, anc)
    decreases |q| - |p|
  {
    if |p| == |q| {
      assert q == p;
    } else {
      var c := q[..|p| + 1];
      assert c == p + [q[|p|]];
      var e := FolderAt(fs, p, q[|p|], q);
      if e.id in anc {
        assert Loops(fs, c) && c == q;
      } else {
        Shrinks(fs, e.id, anc);
        Reached(fs, c, e.id, anc + {e.id}, q);
      }
      OneInWant(fs, p, id, anc, e);
    }
  }

  /** The folder through which p leads on to q. */
  lemma FolderAt(fs: Fs, p: Path, n: string, q: Path) returns (e: Entry)
    requires WellFormed(fs) && Resolve(fs, p).Some? && p + [n] <= q && Resolve(fs, q).Some?
    ensures e in Folders(Listing(fs, p)) && e.name == n && e.id in fs.dirs
    ensures Resolve(fs, p + [n]) == Some(e.id)
    ensures Parent(p + [n]) == p && Leading(fs, p + [n]) == Leading(fs, p) + {e.id}
  {
    if Resolve(fs, p + [n]).None? {
      UnresolvedBelow(fs, p + [n], q);
      assert false;
    }
    ResolveStep(fs, p, n);
    e := Find(Listing(fs, p), n).value;
    FoldersComplete(Listing(fs, p), e);
  }

  lemma OneInWant(fs: Fs, p: Path, id: nat, anc: set<nat>, e: Entry)
    requires WellFormed(fs) && id in fs.dirs && e in Folders(fs.dirs[id]) && e.Folder? && e.id in fs.dirs
    ensures forall k :: k in WantOne(fs, p, e, anc) ==> k in Want(fs, p, id, anc)
  {
    var folders := Folders(fs.dirs[id]);
    FoldersInFs(fs, id);
    FoldersDistinct(fs.dirs[id]);
    var i :| 0 <= i < |folders| && folders[i] == e;
    WantContains(fs, p, folders, anc, i);
  }

  /** The walk cuts every loop it meets. */
  lemma {:induction false} LoopCut(fs: Fs, p: Path, id: nat, anc: set<nat>, q: Path)
    requires WellFormed(fs) && Resolve(fs, p) == Some(id) && anc == Leading(fs, p)
    requires q in Want(fs, p, id, anc) && Loops(fs, q) && !Loops(fs, p)
    ensures Want(fs, p, id, anc)[q] == Node(0, 0, [])
    decreases |fs.dirs.Keys - anc|
  {
    var e := WantBelowOne(fs, p, id, anc, q);
    ChildLeading(fs, p, id, e);
    if e.id !in anc {
      Shrinks(fs, e.id, anc);
      LoopCut(fs, p + [e.name], e.id, anc + {e.id}, q);
    }
  }

  /** A directory that contains itself has a subdirectory, so a cut node is wrong about it. */
  lemma CutIsInexact(fs: Fs, q: Path)
    requires WellFormed(fs) && q in Full(fs) && Loops(fs, q)
    ensures Full(fs)[q] == Node(0, 0, []) && Subdirs(fs, q) != [] && !LocalExact(fs, Full(fs), q)
  {
    LoopCut(fs, [], fs.top, {fs.top}, q);
    LoopsIff(fs, q);
    var k :| 0 <= k < |q| && Resolve(fs, q[..k]) == Resolve(fs, q);
    assert q[..k] + [q[k]] <= q;
    var e := FolderAt(fs, q[..k], q[k], q);
    assert |Subdirs(fs, q)| > 0;
  }

  /** A directory that is recorded and does not contain itself is recorded rightly, and so is
      all above it: below a cut nothing is recorded. */
  lemma {:induction false} FullOnTheWay(fs: Fs, q: Path, k: nat)
    requires WellFormed(fs) && q in Full(fs) && !Loops(fs, q) && k <= |q|
    ensures LocalExact(fs, Full(fs), q[..k])
    decreases |q|
  {
    WantLocal(fs, [], fs.top, q);
    assert q[..|q|] == q;
    if k < |q| {
      WantParent(fs, [], fs.top, {fs.top}, q);
      if Loops(fs, Parent(q)) {
        CutIsInexact(fs, Parent(q));
        assert false;
      }
      FullOnTheWay(fs, Parent(q), k);
      assert Parent(q)[..k] == q[..k];
    }
  }

  /** If something loops, the full recomputation cuts some path. */
  lemma {:induction false} CutFound(fs: Fs, q: Path) returns (r: Path)
    requires WellFormed(fs) && Loops(fs, q)
    ensures r in Full(fs) && Loops(fs, r)
    decreases |q|
  {
    if k :| 0 < k < |q| && Loops(fs, q[..k]) {
      r := CutFound(fs, q[..k]);
    } else {
      Reached(fs, [], fs.top, {fs.top}, q);
      r := q;
    }
  }

  /** The nodes of a full recomputation all agree with the listings exactly when no
      directory contains itself. */
  lemma FullIsRightIff(fs: Fs)
    requires WellFormed(fs)
    ensures Acyclic(fs) <==> forall q :: q in Full(fs) ==> LocalExact(fs, Full(fs), q)
  {
    FullExact(fs);
    if Acyclic(fs) {
      forall q | q in Full(fs) ensures LocalExact(fs, Full(fs), q) {
        ExactExists(fs, Full(fs), q);
      }
    } else {
      var q :| Loops(fs, q);
      var r := CutFound(fs, q);
      CutIsInexact(fs, r);
    }
  }

  /** Every recorded directory that contains itself is cut. */
  ghost predicate CutsOk(fs: Fs, data: Sizes)
    requires WellFormed(fs)
  {
    forall q :: q in data && Loops(fs, q) ==> data[q] == Node(0, 0, [])
  }

  lemma FullCuts(fs: Fs)
    requires WellFormed(fs)
    ensures CutsOk(fs, Full(fs))
  {
    forall q | q in Full(fs) && Loops(fs, q) ensures Full(fs)[q] == Node(0, 0, []) {
      CutIsInexact(fs, q);
    }
  }

  /** With all loops cut, what is recorded is what a walk without loops reaches. */
  lemma {:induction false} CutReached(fs: Fs, data: Sizes, q: Path)
    requires WellFormed(fs) && Exact(fs, data) && CutsOk(fs, data)
    ensures q in data <==> Resolve(fs, q).Some? && forall k :: 0 <= k < |q| ==> !Loops(fs, q[..k])
    decreases |q|
  {
    if q == [] {
      assert SoundAt(fs, data, {}, q);
    } else {
      CutReached(fs, data, Parent(q));
      assert forall k :: 0 <= k < |q| - 1 ==> Parent(q)[..k] == q[..k];
      assert q[..|q| - 1] == Parent(q);
      Split(q);
      ResolveNames(fs, Parent(q), Last(q));
      assert SoundAt(fs, data, {}, q);
      if Parent(q) in data {
        ExactExists(fs, data, Parent(q));
        if !Loops(fs, Parent(q)) && Resolve(fs, q).Some? {
          var i :| 0 <= i < |Subdirs(fs, Parent(q))| && Subdirs(fs, Parent(q))[i] == Last(q);
          assert Parent(q) + [Subdirs(fs, Parent(q))[i]] in data;
        }
      }
    }
  }

  lemma {:induction false} CutUnique(fs: Fs, a: Sizes, b: Sizes, q: Path)
    requires WellFormed(fs) && Exact(fs, a) && CutsOk(fs, a) && Exact(fs, b) && CutsOk(fs, b) && q in a
    ensures q in b && a[q] == b[q]
    decreases |fs.dirs.Keys| + 1 - |q|
  {
    CutReached(fs, a, q);
    CutReached(fs, b, q);
    ShortWay(fs, q);
    if !Loops(fs, q) {
      ExactExists(fs, a, q);
      ExactExists(fs, b, q);
      var names := Subdirs(fs, q);
      forall i | 0 <= i < |names|
        ensures q + [names[i]] in a && q + [names[i]] in b && a[q + [names[i]]] == b[q + [names[i]]]
      {
        CutReached(fs, a, q + [names[i]]);
        ShortWay(fs, q + [names[i]]);
        CutUnique(fs, a, b, q + [names[i]]);
      }
      ChildSumSame(a, b, q, names);
    }
  }

  /** An exact map is the full recomputation exactly if it cuts whatever contains itself. */
  lemma ExactIsFullIff(fs: Fs, data: Sizes)
    requires WellFormed(fs) && Exact(fs, data)
    ensures data == Full(fs) <==> CutsOk(fs, data)
  {
    FullExact(fs);
    FullCuts(fs);
    if CutsOk(fs, data) {
      forall q ensures q in data <==> q in Full(fs) {
        CutReached(fs, data, q);
        CutReached(fs, Full(fs), q);
      }
      forall q | q in data ensures data[q] == Full(fs)[q] {
        CutUnique(fs, data, Full(fs), q);
      }
    }
  }

  /** A walk that starts at p cuts whatever contains itself, if only because of directories
      above p. */
  ghost predicate EntersOk(fs: Fs, p: Path)
    requires WellFormed(fs)
  {
    Resolve(fs, p).Some? ==> CutsOk(fs, Want(fs, p, Resolve(fs, p).value, {Resolve(fs, p).value}))
  }

  /** Re-reading p brings nothing that contains itself. */
  ghost predicate TameAt(fs: Fs, data: Sizes, p: Path)
    requires WellFormed(fs)
  {
    !Loops(fs, p) && forall n :: p + [n] !in data ==> EntersOk(fs, p + [n])
  }

  /** Nor does re-reading p and all above it. */
  ghost predicate Tame(fs: Fs, data: Sizes, p: Path)
    requires WellFormed(fs)
  {
    (p !in data ==> EntersOk(fs, p)) && forall k :: 0 <= k <= |p| ==> TameAt(fs, data, p[..k])
  }

  /** Where no directory contains itself everything is tame. */
  lemma AcyclicTame(fs: Fs, data: Sizes, p: Path)
    requires WellFormed(fs) && Acyclic(fs)
    ensures CutsOk(fs, data) && Tame(fs, data, p)
  {
  }

  /** Where no directory contains itself an exact map is the recursive definition: keeping it
      up incrementally and recomputing it from scratch give the same nodes, sums and children
      lists. */
  lemma ExactIsFull(fs: Fs, data: Sizes)
    requires WellFormed(fs) && Acyclic(fs)
    ensures Exact(fs, data) <==> data == Full(fs)
  {
    FullExact(fs);
    if Exact(fs, data) {
      ExactIsFullIff(fs, data);
    }
  }

  /*** changes on disk ***/

  /** The node of a directory that exists has other files, or other subdirectories, or is not
      cut although the directory contains itself. */
  predicate StaleAt(fs: Fs, data: Sizes, q: Path)
    requires WellFormed(fs)
  {
    && q in data && Resolve(fs, q).Some?
    && if Loops(fs, q) then data[q] != Node(0, 0, [])
       else data[q].fileSum != FileSum(Listing(fs, q)) || data[q].children != Subdirs(fs, q)
  }

  /** After a change on disk, the full recomputation is sound up to what became stale. */
  lemma ChangeMakesSuspects(fs: Fs, fs': Fs, D: set<Path>)
    requires WellFormed(fs) && WellFormed(fs')
    requires forall q :: StaleAt(fs', Full(fs), q) ==> q in D
    ensures Sound(fs', Full(fs), D)
    ensures CutsOk(fs', Full(fs)) <==> forall q :: StaleAt(fs', Full(fs), q) ==> !Loops(fs', q)
  {
    var data := Full(fs);
    FullExact(fs);
    FullCuts(fs);
    forall q ensures SoundAt(fs', data, D, q) {
      if q in data {
        ExactExists(fs, data, q);
        assert SoundAt(fs, data, {}, q);
        if q != [] {
          ExactExists(fs, data, Parent(q));
          Split(q);
          ResolveNames(fs', Parent(q), Last(q));
          if Resolve(fs', Parent(q)).Some? && Resolve(fs', q).None? {
            assert StaleAt(fs', data, Parent(q));
          }
        }
        if Resolve(fs', q).Some? && !Above(D, q) {
          assert q !in D && !StaleAt(fs', data, q);
        }
      }
    }
    assert CutsOk(fs', data) <==> forall q :: StaleAt(fs', data, q) ==> !Loops(fs', q) by {
      forall q | q in data && Loops(fs', q) ensures data[q] != Node(0, 0, []) ==> StaleAt(fs', data, q) {
      }
    }
  }

  /** A stale node is not what a new recomputation gives. */
  lemma StaleIsWrong(fs: Fs, data: Sizes, q: Path)
    requires WellFormed(fs) && StaleAt(fs, data, q)
    ensures !(q in Full(fs) && Full(fs)[q] == data[q])
  {
    FullExact(fs);
    FullCuts(fs);
    if q in Full(fs) {
      ExactExists(fs, Full(fs), q);
    }
  }

  /*** readability ***/

  /** Without broken paths everything can be read. */
  lemma {:induction false} AllReadable(fs: Fs, p: Path, id: nat, anc: set<nat>)
    requires WellFormed(fs) && id in fs.dirs && fs.broken == {}
    ensures Readable(fs, p, id, anc)
    decreases |fs.dirs.Keys - anc|, 1, 0
  {
    FoldersInFs(fs, id);
    AllReadableAll(fs, p, Folders(fs.dirs[id]), anc);
  }

  lemma {:induction false} AllReadableAll(fs: Fs, p: Path, folders: seq<Entry>, anc: set<nat>)
    requires WellFormed(fs) && InFs(fs, folders) && fs.broken == {}
    ensures ReadableAll(fs, p, folders, anc)
    decreases |fs.dirs.Keys - anc|, 0, |folders|
  {
    if folders != [] {
      AllReadableAll(fs, p, folders[..|folders| - 1], anc);
      var e := folders[|folders| - 1];
      if e.id !in anc {
        Shrinks(fs, e.id, anc);
        AllReadable(fs, p + [e.name], e.id, anc + {e.id});
      }
    }
  }
}

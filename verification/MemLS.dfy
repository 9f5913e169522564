/** The in-memory lock system: a reference-counted name tree, a token map and an
    expiry heap, mutated together and proved against LockSpec. */
module MemLS {
  import opened Wrappers
  import opened Names
  import opened ByExpiry
  import HeapOrder
  import opened LockSpec
  import opened Tokens
  import opened Counting

  /** What a successful Confirm's release callback captures. */
  datatype Claim = Claim(n0: Node?, n1: Node?)

  class LockSystem {
    var byName: map<string, Node>
    var byToken: map<string, Node>
    var gen: nat
    const byExpiry: ExpiryHeap
    /** Every node the table has ever owned. */
    ghost var repr: set<Node>

    /*** abstraction and invariant ***/

    ghost function LockAt(n: Node): Lock
      reads n
    {
      Lock(n.details, if n.details.duration >= 0 then n.expiry else 0, n.held)
    }

    ghost function Locks(): (t: Table)
      reads this, byToken.Values
      ensures t.Keys == byToken.Keys
      ensures forall k :: k in t ==> t[k] == LockAt(byToken[k])
    {
      map k | k in byToken :: LockAt(byToken[k])
    }

    ghost predicate Shaped()
      reads this, repr
    {
      forall s :: s in byName ==>
        byName[s] in repr && byName[s].details.root == s && byName[s].refCount > 0
    }

    ghost function Counts(): (m: map<string, int>)
      reads this, repr
      requires Shaped()
      ensures m.Keys == byName.Keys
    {
      map s | s in byName :: byName[s].refCount
    }

    /** A node sits in the heap exactly while its lock can expire. */
    ghost predicate InHeapWhenDue(n: Node)
      reads n, byExpiry
    {
      if n.token != "" && !n.held && n.details.duration >= 0
      then n in byExpiry.nodes
      else n !in byExpiry.nodes && n.byExpiryIndex == -1
    }

    /** The node of a name is recorded under its token, if locked. */
    ghost predicate NameOk(s: string)
      reads this, repr, byExpiry
    {
      s in byName ==>
        && byName[s] in repr
        && InHeapWhenDue(byName[s])
        && (byName[s].token != "" ==> byName[s].token in byToken && byToken[byName[s].token] == byName[s])
        && (byName[s].token == "" ==> !byName[s].held)
    }

    ghost predicate TokenOk(k: string)
      reads this, repr
    {
      k in byToken ==>
        && k != ""
        && ParseUint(k) <= gen
        && byToken[k] in repr
        && byToken[k].token == k
        && Clean(byToken[k].details.root)
        && byToken[k].details.root in byName
        && byName[byToken[k].details.root] == byToken[k]
    }

    ghost predicate SlotOk(i: int)
      reads this, repr, byExpiry
    {
      0 <= i < |byExpiry.nodes| ==>
        && byExpiry.nodes[i] in repr
        && byExpiry.nodes[i].details.root in byName
        && byName[byExpiry.nodes[i].details.root] == byExpiry.nodes[i]
    }

    ghost predicate Valid()
      reads this, repr, byToken.Values, byExpiry, byExpiry.nodes
    {
      && Shaped()
      && RefsExact(Locks(), Counts())
      && byExpiry.Valid()
      && (forall s :: NameOk(s))
      && (forall k :: TokenOk(k))
      && (forall i :: SlotOk(i))
    }

    /** A token that stays in use stays the token of the same node. */
    twostate predicate TokensStay()
      reads this
    {
      forall k :: k in old(byToken) && k in byToken ==> byToken[k] == old(byToken)[k]
    }

    /** Every node that was held, but for those of the released tokens, is still listed
        under its token and held: its release can still find it so. */
    twostate predicate NodesStayHeld(released: set<string>)
      reads this, repr
    {
      forall n :: n in old(repr) && old(Listed(n) && n.held) && old(n.token) !in released ==>
        n in repr && Listed(n) && n.held && n.token == old(n.token)
    }

    twostate lemma HeldInTable(released: set<string>)
      requires old(Valid()) && Valid() && TokensStay() && old(repr) <= repr
      requires StayHeld(old(Locks()), Locks(), released)
      ensures NodesStayHeld(released)
    {
      forall n | n in old(repr) && old(Listed(n) && n.held) && old(n.token) !in released
        ensures n in repr && Listed(n) && n.held && n.token == old(n.token)
      {
        var k := old(n.token);
        assert k in old(Locks()) && old(Locks())[k] == old(LockAt(n));
        assert k in Locks() && Locks()[k] == LockAt(byToken[k]);
        assert TokenOk(k);
      }
    }

    constructor (seed: nat)
      ensures Valid() && fresh(repr) && fresh(byExpiry)
      ensures Locks() == map[] && gen == seed
    {
      byName, byToken, gen := map[], map[], seed;
      byExpiry := new ExpiryHeap();
      repr := {};
    }

    /*** canCreate ***/

    /** Answers whether the new lock would share no resource with an existing one. */
    method CanCreate(name: string, zeroDepth: bool) returns (ok: bool)
      requires Valid() && Clean(name)
      ensures forall d: LockDetails :: d.root == name && d.zeroDepth == zeroDepth ==> (ok <==> Free(Locks(), d))
    {
      ghost var d := LockDetails(name, 0, "", zeroDepth);
      ghost var at;
      ok, at := WalkUnblocked(name, zeroDepth);
      if ok {
        UnblockedFree(d);
      } else {
        BlockedNotFree(d, at);
      }
      forall d': LockDetails | d'.root == name && d'.zeroDepth == zeroDepth ensures ok <==> Free(Locks(), d') {
        FreeByCoverage(Locks(), d, d');
      }
    }

    /** The walk towards the root; at is where it stopped early. */
    method WalkUnblocked(name: string, zeroDepth: bool) returns (ok: bool, ghost at: int)
      requires Shaped() && Clean(name)
      ensures ok ==> forall j :: 0 <= j < |Chain(name)| ==> !Blocks(Chain(name)[j], j == 0, zeroDepth)
      ensures !ok ==> 0 <= at < |Chain(name)| && Blocks(Chain(name)[at], at == 0, zeroDepth)
    {
      var names := WalkToRoot(name);
      for i := 0 to |names|
        invariant forall j :: 0 <= j < i ==> !Blocks(names[j], j == 0, zeroDepth)
      {
        at := i;
        if names[i] in byName {
          var n := byName[names[i]];
          if i == 0 {
            if n.token != "" || !zeroDepth {
              return false, at;
            }
          } else if n.token != "" && !n.details.zeroDepth {
            return false, at;
          }
        }
      }
      return true, 0;
    }

    /** The node of a visited name forbids the new lock. */
    ghost predicate Blocks(name0: string, first: bool, zeroDepth: bool)
      reads this, repr
      requires Shaped()
    {
      && name0 in byName
      && (if first then byName[name0].token != "" || !zeroDepth
          else byName[name0].token != "" && !byName[name0].details.zeroDepth)
    }

    lemma FreeIsNoConflict(d: LockDetails)
      requires Valid() && Clean(d.root)
      ensures Free(Locks(), d) <==> forall k :: k in byToken ==> !Conflict(d, byToken[k].details)
    {
      forall k | k in byToken ensures Overlap(d, byToken[k].details) <==> Conflict(d, byToken[k].details) {
        assert TokenOk(k);
        OverlapIsConflict(d, byToken[k].details);
      }
    }

    lemma BlockedNotFree(d: LockDetails, i: int)
      requires Valid() && Clean(d.root) && 0 <= i < |Chain(d.root)|
      requires Blocks(Chain(d.root)[i], i == 0, d.zeroDepth)
      ensures !Free(Locks(), d)
    {
      FreeIsNoConflict(d);
      BlockedConflicts(d, i);
    }

    lemma UnblockedFree(d: LockDetails)
      requires Valid() && Clean(d.root)
      requires forall j :: 0 <= j < |Chain(d.root)| ==> !Blocks(Chain(d.root)[j], j == 0, d.zeroDepth)
      ensures Free(Locks(), d)
    {
      FreeIsNoConflict(d);
      forall k | k in byToken ensures !Conflict(d, byToken[k].details) {
        if Conflict(d, byToken[k].details) {
          var j := ConflictBlocks(d, k);
          assert false;
        }
      }
    }

    lemma BlockedConflicts(d: LockDetails, i: int)
      requires Valid() && Clean(d.root) && 0 <= i < |Chain(d.root)|
      requires Blocks(Chain(d.root)[i], i == 0, d.zeroDepth)
      ensures exists k :: k in byToken && Conflict(d, byToken[k].details)
    {
      var s := Chain(d.root)[i];
      ChainIsWithin(s, d.root);
      assert NameOk(s) && TokenOk(byName[s].token);
      var n := byName[s];
      if n.token != "" {
        assert Conflict(d, byToken[n.token].details);
      } else {
        assert Counts()[s] == n.refCount && RefExact(Locks(), Counts(), s);
        var k :| k in Below(Locks(), s);
        assert Conflict(d, byToken[k].details);
      }
    }

    lemma ConflictBlocks(d: LockDetails, k: string) returns (j: int)
      requires Valid() && Clean(d.root) && k in byToken && Conflict(d, byToken[k].details)
      ensures 0 <= j < |Chain(d.root)| && Blocks(Chain(d.root)[j], j == 0, d.zeroDepth)
    {
      var n := byToken[k];
      var r := n.details.root;
      assert TokenOk(k);
      if r == d.root {
        j := 0;
      } else if !n.details.zeroDepth && Within(r, d.root) {
        ChainIsWithin(r, d.root);
        j :| 0 <= j < |Chain(d.root)| && Chain(d.root)[j] == r;
      } else {
        assert k in Below(Locks(), d.root) && RefExact(Locks(), Counts(), d.root);
        j := 0;
      }
    }

    /*** create and remove: the reference-counted name tree ***/

    /** A node that nobody has locked. */
    ghost predicate Blank(n: Node)
      reads n
    {
      n.token == "" && n.byExpiryIndex == -1 && !n.held
    }

    /** Names keep their nodes, and new names get new, blank ones. */
    twostate predicate SameNodes()
      reads this, repr
    {
      forall s :: s in byName ==>
        if s in old(byName) then byName[s] == old(byName)[s]
        else byName[s] in repr && byName[s] !in old(repr) && Blank(byName[s])
    }

    method Increment(s: string)
      requires Shaped()
      modifies `byName, `repr, repr`refCount
      ensures Shaped() && SameNodes()
      ensures old(repr) <= repr && fresh(repr - old(repr))
      ensures Counts() == CountedUp(old(Counts()), [s])
    {
      if s !in byName {
        var n := new Node(s);
        byName := byName[s := n];
        repr := repr + {n};
      }
      var n := byName[s];
      n.refCount := n.refCount + 1;
    }

    method Decrement(s: string)
      requires Shaped() && s in byName
      modifies `byName, repr`refCount
      ensures Shaped() && SameNodes()
      ensures Counts() == CountedDown(old(Counts()), [s])
    {
      var x := byName[s];
      x.refCount := x.refCount - 1;
      if x.refCount == 0 {
        byName := byName - {s};
      }
    }

    method CountUpAll(names: seq<string>)
      requires Shaped()
      modifies `byName, `repr, repr`refCount
      ensures Shaped() && SameNodes() && old(repr) <= repr && fresh(repr - old(repr))
      ensures Counts() == CountedUp(old(Counts()), names)
    {
      for i := 0 to |names|
        invariant Shaped() && SameNodes() && old(byName.Keys) <= byName.Keys
        invariant old(repr) <= repr && fresh(repr - old(repr))
        invariant CountedUp(Counts(), names[i..]) == CountedUp(old(Counts()), names)
      {
        Increment(names[i]);
      }
    }

    method CountDownAll(names: seq<string>)
      requires Shaped() && Distinct(names) && forall s :: s in names ==> s in byName
      modifies `byName, repr`refCount
      ensures Shaped() && SameNodes()
      ensures Counts() == CountedDown(old(Counts()), names)
    {
      for i := 0 to |names|
        invariant Shaped() && SameNodes()
        invariant forall j :: i <= j < |names| ==> names[j] in byName
        invariant CountedDown(Counts(), names[i..]) == CountedDown(old(Counts()), names)
      {
        Decrement(names[i]);
      }
    }

    /** Counts one more lock at name on every visited name; ret is name's node. */
    method CountUp(name: string) returns (ret: Node)
      requires Shaped() && Clean(name)
      modifies `byName, `repr, repr`refCount
      ensures Shaped() && SameNodes()
      ensures old(repr) <= repr && fresh(repr - old(repr))
      ensures Counts() == CountedUp(old(Counts()), Chain(name))
      ensures name in byName && ret == byName[name]
    {
      var names := WalkToRoot(name);
      CountUpAll(names);
      ChainDistinct(name);
      CountedUpAt(old(Counts()), Chain(name), name);
      ret := byName[name];
    }

    /** Counts one lock less at name on every visited name. */
    method CountDown(name: string)
      requires Shaped() && Clean(name)
      requires forall s :: s in Chain(name) ==> s in byName
      modifies `byName, repr`refCount
      ensures Shaped() && SameNodes()
      ensures Counts() == CountedDown(old(Counts()), Chain(name))
    {
      var names := WalkToRoot(name);
      ChainDistinct(name);
      CountDownAll(names);
    }

    /** Only the named node's lock, the counts and heap positions may differ. */
    twostate predicate OnlyToken(n: Node)
      reads this, repr
    {
      && repr == old(repr) && gen == old(gen) && SameNodes()
      && forall x :: x in repr ==>
           && x.details == old(x.details) && x.expiry == old(x.expiry) && x.held == old(x.held)
           && (x != n ==> x.token == old(x.token))
    }

    method Untoken(n: Node)
      requires Shaped() && n.token in byToken && byExpiry.Valid()
      requires forall k :: k in byToken && byToken[k] == n ==> k == n.token
      modifies `byToken, n`token
      ensures n.token == "" && byToken == old(byToken) - {old(n.token)}
      ensures Shaped() && Counts() == old(Counts()) && Locks() == old(Locks()) - {old(n.token)}
      ensures byExpiry.Valid()
    {
      byToken := byToken - {n.token};
      n.token := "";
      assert Counts() == old(Counts());
      assert Locks() == old(Locks()) - {old(n.token)};
      assert byExpiry.Keys() == old(byExpiry.Keys());
    }

    method Uncount(name: string)
      requires Shaped() && Clean(name) && byExpiry.Valid()
      requires forall s :: s in Chain(name) ==> s in byName
      modifies `byName, repr`refCount
      ensures Shaped() && SameNodes() && Counts() == CountedDown(old(Counts()), Chain(name))
      ensures Locks() == old(Locks()) && byExpiry.Valid()
    {
      CountDown(name);
      assert Locks() == old(Locks());
      assert byExpiry.Keys() == old(byExpiry.Keys());
    }

    /** The token and count half of removing a lock. */
    method Untrack(n: Node)
      requires Valid() && n.token in byToken && byToken[n.token] == n
      modifies `byName, `byToken, repr`refCount, n`token
      ensures n.token == "" && byToken == old(byToken) - {old(n.token)}
      ensures Shaped() && SameNodes() && RefsExact(Locks(), Counts())
      ensures Locks() == old(Locks()) - {old(n.token)}
      ensures byExpiry.Valid()
    {
      ghost var k := n.token;
      assert TokenOk(k);
      RefsRemoved(Locks(), Counts(), k);
      forall k' | k' in byToken && byToken[k'] == n ensures k' == k {
        assert TokenOk(k');
      }
      Untoken(n);
      Uncount(n.details.root);
    }

    /** The heap half: n leaves the heap, if it is there. */
    method Unqueue(n: Node)
      requires byExpiry.Valid() && Shaped()
      requires n.byExpiryIndex >= 0 <==> n in byExpiry.nodes
      requires n in byExpiry.nodes ==> n.byExpiryIndex < |byExpiry.nodes| && byExpiry.nodes[n.byExpiryIndex] == n
      requires n !in byExpiry.nodes ==> n.byExpiryIndex == -1
      modifies byExpiry, byExpiry.Members()`byExpiryIndex
      ensures byExpiry.Valid() && n.byExpiryIndex == -1 && Shaped()
      ensures byExpiry.Members() == old(byExpiry.Members()) - {n}
      ensures Locks() == old(Locks()) && Counts() == old(Counts())
    {
      Dequeue(n);
      assert Locks() == old(Locks());
      assert Counts() == old(Counts());
    }

    /** A live node knows where in the heap it is. */
    lemma Placed(n: Node)
      requires Valid() && n.token in byToken && byToken[n.token] == n
      ensures n in repr && byExpiry.Members() <= repr && InHeapWhenDue(n) && n.token != ""
      ensures n.byExpiryIndex >= 0 <==> n in byExpiry.nodes
      ensures n in byExpiry.nodes ==> n.byExpiryIndex < |byExpiry.nodes| && byExpiry.nodes[n.byExpiryIndex] == n
      ensures n !in byExpiry.nodes ==> n.byExpiryIndex == -1
    {
      assert TokenOk(n.token) && NameOk(n.details.root);
      forall x | x in byExpiry.nodes ensures x in repr {
        var i :| 0 <= i < |byExpiry.nodes| && byExpiry.nodes[i] == x;
        assert SlotOk(i);
      }
    }

    /** Drops the lock of n. */
    method Remove(n: Node)
      requires Valid() && n.token in byToken && byToken[n.token] == n && !n.held
      modifies this, repr, byExpiry
      ensures Valid() && repr == old(repr) && gen == old(gen)
      ensures Locks() == old(Locks()) - {old(n.token)} && byToken == old(byToken) - {old(n.token)}
    {
      Placed(n);
      Untrack(n);
      Unqueue(n);
      RemovedOk(n);
    }

    twostate lemma RemovedOk(n: Node)
      requires old(Valid()) && old(n.token in byToken && byToken[n.token] == n && !n.held)
      requires n.token == "" && byToken == old(byToken) - {old(n.token)} && n.byExpiryIndex == -1
      requires Shaped() && OnlyToken(n) && RefsExact(Locks(), Counts())
      requires byExpiry.Members() == old(byExpiry.Members()) - {n}
      requires forall x :: x in repr && x !in old(byExpiry.Members()) ==> x.byExpiryIndex == old(x.byExpiryIndex)
      ensures (forall s :: NameOk(s)) && (forall k :: TokenOk(k)) && (forall i :: SlotOk(i))
    {
      assert old(TokenOk(n.token));
      assert forall x :: x in byExpiry.nodes <==> x in byExpiry.Members();
      assert forall x :: old(x in byExpiry.nodes <==> x in byExpiry.Members());
      forall s ensures NameOk(s) {
        assert old(NameOk(s));
      }
      forall k ensures TokenOk(k) {
        assert old(TokenOk(k));
        if k in byToken {
          ChainRecorded(Locks(), Counts(), k, byToken[k].details.root);
        }
      }
      forall i ensures SlotOk(i) {
        if 0 <= i < |byExpiry.nodes| {
          var x := byExpiry.nodes[i];
          assert x in byExpiry.Members() && x in old(byExpiry.Members()) && x in old(byExpiry.nodes);
          var j :| 0 <= j < old(|byExpiry.nodes|) && old(byExpiry.nodes[j]) == x;
          assert old(SlotOk(j));
          assert old(NameOk(x.details.root));
          assert TokenOk(x.token);
        }
      }
    }

    /*** expiry ***/

    lemma FirstIsLive()
      requires Valid() && byExpiry.nodes != []
      ensures var n := byExpiry.nodes[0];
        && n.token in byToken && byToken[n.token] == n && !n.held
        && n.details.duration >= 0 && Locks()[n.token] == Lock(n.details, n.expiry, false)
    {
      var n := byExpiry.nodes[0];
      assert SlotOk(0);
      assert NameOk(n.details.root);
      assert InHeapWhenDue(n);
    }

    lemma NoneDue(now: int)
      requires Valid() && (byExpiry.nodes == [] || now < byExpiry.nodes[0].expiry)
      ensures Collect(Locks(), now) == Locks()
    {
      forall k | k in Locks() ensures !Expired(Locks()[k], now) {
        var n := byToken[k];
        assert TokenOk(k) && NameOk(n.details.root);
        if n in byExpiry.nodes {
          var i :| 0 <= i < |byExpiry.nodes| && byExpiry.nodes[i] == n;
          HeapOrder.RootIsMin(byExpiry.Keys(), i);
        }
      }
    }

    /** Drops every lock that has expired and that nobody holds, and no other. */
    method CollectExpiredNodes(now: int)
      requires Valid()
      modifies this, repr, byExpiry
      ensures Valid() && repr == old(repr) && gen == old(gen)
      ensures Locks() == Collect(old(Locks()), now) && TokensStay()
    {
      while |byExpiry.nodes| > 0
        invariant Valid() && repr == old(repr) && gen == old(gen) && TokensStay()
        invariant Collect(Locks(), now) == Collect(old(Locks()), now)
        decreases |Locks()|
      {
        if now < byExpiry.nodes[0].expiry {
          break;
        }
        FirstIsLive();
        ghost var t, k := Locks(), byExpiry.nodes[0].token;
        Remove(byExpiry.nodes[0]);
        CollectRemoved(t, k, now);
      }
      NoneDue(now);
    }

    /*** hold, unhold and refresh: one node changes in place ***/

    /** n is the node its token names. */
    ghost predicate Listed(n: Node)
      reads this, n
    {
      n.token in byToken && byToken[n.token] == n
    }

    ghost predicate Live(n: Node)
      reads this, repr, byToken.Values, byExpiry, byExpiry.nodes, n
    {
      Valid() && Listed(n)
    }

    /** Nothing but n's duration, expiry, hold and place in the heap has changed. */
    twostate predicate Touched(n: Node)
      reads this, repr, byExpiry, n
    {
      && repr == old(repr) && gen == old(gen)
      && byName == old(byName) && byToken == old(byToken)
      && byExpiry.Members() - {n} == old(byExpiry.Members()) - {n}
      && n.token == old(n.token) && n.refCount == old(n.refCount)
      && n.details == old(n.details).(duration := n.details.duration)
      && forall x :: x in repr && x != n ==>
           && x.details == old(x.details) && x.expiry == old(x.expiry) && x.held == old(x.held)
           && x.token == old(x.token) && x.refCount == old(x.refCount)
           && (x !in old(byExpiry.Members()) ==> x.byExpiryIndex == old(x.byExpiryIndex))
    }

    twostate lemma TouchedOk(n: Node)
      requires old(Live(n))
      requires Touched(n) && InHeapWhenDue(n) && byExpiry.Valid()
      ensures Valid()
      ensures Locks() == old(Locks())[n.token := LockAt(n)]
    {
      TouchedTokens(n);
      TouchedTable(n);
      SlotsOk(n);
      TouchedNames(n);
    }

    twostate lemma TouchedTokens(n: Node)
      requires old(Live(n))
      requires Touched(n)
      ensures forall k :: TokenOk(k)
    {
      assert old(TokenOk(n.token));
      forall k ensures TokenOk(k) {
        assert old(TokenOk(k));
      }
    }

    twostate lemma TouchedNames(n: Node)
      requires old(Live(n))
      requires Touched(n) && InHeapWhenDue(n)
      ensures forall s :: NameOk(s)
    {
      StillPlaced(n);
      assert old(TokenOk(n.token));
      forall s ensures NameOk(s) {
        assert old(NameOk(s));
      }
    }

    twostate lemma StillPlaced(new n: Node)
      requires byExpiry.Members() - {n} == old(byExpiry.Members()) - {n}
      ensures forall x :: x != n ==> (x in byExpiry.nodes <==> x in old(byExpiry.nodes))
    {
      assert forall x :: x != n ==> (x in byExpiry.nodes <==> x in byExpiry.Members() - {n});
      assert forall x :: x != n ==> (x in old(byExpiry.nodes) <==> x in old(byExpiry.Members()) - {n});
    }

    twostate lemma TouchedTable(n: Node)
      requires old(Live(n))
      requires Touched(n) && forall k :: TokenOk(k)
      ensures Locks() == old(Locks())[n.token := LockAt(n)]
      ensures Shaped() && RefsExact(Locks(), Counts())
    {
      forall k | k in byToken
        ensures Locks()[k] == if k == n.token then LockAt(n) else old(Locks())[k]
      {
        assert TokenOk(k) && TokenOk(n.token);
      }
      assert Counts() == old(Counts());
      RefsSameRoots(old(Locks()), Locks(), Counts());
    }

    twostate lemma SlotsOk(n: Node)
      requires old(Live(n))
      requires Touched(n) && forall k :: TokenOk(k)
      ensures forall i :: SlotOk(i)
    {
      forall i ensures SlotOk(i) {
        if 0 <= i < |byExpiry.nodes| {
          var x := byExpiry.nodes[i];
          assert x in byExpiry.Members();
          if x == n {
            assert TokenOk(n.token);
          } else {
            assert x in byExpiry.Members() - {n};
            assert x in old(byExpiry.Members()) && x in old(byExpiry.nodes);
            var j :| 0 <= j < old(|byExpiry.nodes|) && old(byExpiry.nodes[j]) == x;
            assert old(SlotOk(j));
          }
        }
      }
    }

    /** Takes a lock into use; it cannot expire meanwhile. */
    method Hold(n: Node)
      requires Live(n) && !n.held
      modifies n`held, byExpiry, byExpiry.Members()`byExpiryIndex
      ensures Live(n) && n.held
      ensures Locks() == SetHeld(old(Locks()), {n.token}, true)
    {
      Placed(n);
      SetHeldOne(Locks(), n.token, true);
      n.held := true;
      assert byExpiry.Keys() == old(byExpiry.Keys());
      if n.details.duration >= 0 && n.byExpiryIndex >= 0 {
        var _ := byExpiry.Remove(n.byExpiryIndex);
      }
      TouchedOk(n);
    }

    /** Gives a held lock back; it is due again at its old expiry. */
    method Unhold(n: Node)
      requires Live(n) && n.held
      modifies n`held, n`byExpiryIndex, byExpiry, byExpiry.Members()`byExpiryIndex
      ensures Live(n) && !n.held
      ensures Locks() == SetHeld(old(Locks()), {n.token}, false)
    {
      Placed(n);
      SetHeldOne(Locks(), n.token, false);
      n.held := false;
      assert byExpiry.Keys() == old(byExpiry.Keys());
      if n.details.duration >= 0 {
        byExpiry.Push(n);
      }
      TouchedOk(n);
    }

    method Dequeue(n: Node)
      requires byExpiry.Valid() && (n in byExpiry.nodes || n.byExpiryIndex == -1)
      modifies byExpiry, byExpiry.Members()`byExpiryIndex
      ensures byExpiry.Valid() && n.byExpiryIndex == -1 && n !in byExpiry.nodes
      ensures byExpiry.Members() == old(byExpiry.Members()) - {n}
    {
      if n.byExpiryIndex >= 0 {
        var _ := byExpiry.Remove(n.byExpiryIndex);
      }
    }

    /** Starts n's timeout afresh. */
    method Renew(n: Node, now: int, duration: int)
      requires Live(n) && !n.held
      modifies n`details, n`expiry, n`byExpiryIndex, byExpiry, byExpiry.Members()`byExpiryIndex
      ensures Live(n) && n.details == old(n.details).(duration := duration)
      ensures Locks() == old(Locks())[n.token := NewLock(n.details, now)]
    {
      Placed(n);
      Reschedule(n, n.details.(duration := duration), now);
      TouchedOk(n);
    }

    method Reschedule(n: Node, details: LockDetails, now: int)
      requires byExpiry.Valid() && (n in byExpiry.nodes || n.byExpiryIndex == -1)
      modifies n`details, n`expiry, n`byExpiryIndex, byExpiry, byExpiry.Members()`byExpiryIndex
      ensures byExpiry.Valid() && n.details == details
      ensures details.duration >= 0 ==> n.expiry == now + details.duration
      ensures byExpiry.Members() - {n} == old(byExpiry.Members()) - {n}
      ensures if details.duration >= 0 then n in byExpiry.nodes else n !in byExpiry.nodes && n.byExpiryIndex == -1
    {
      Dequeue(n);
      Schedule(n, details, now);
    }

    /** Gives n its metadata and, if they are finite, its place in the heap. */
    method Schedule(n: Node, details: LockDetails, now: int)
      requires byExpiry.Valid() && n !in byExpiry.nodes
      modifies n`details, n`expiry, n`byExpiryIndex, byExpiry, byExpiry.Members()`byExpiryIndex
      ensures byExpiry.Valid() && n.details == details
      ensures n.expiry == if details.duration >= 0 then now + details.duration else old(n.expiry)
      ensures details.duration >= 0 ==> n in byExpiry.nodes && byExpiry.Members() == old(byExpiry.Members()) + {n}
      ensures details.duration < 0 ==> byExpiry.nodes == old(byExpiry.nodes) && n.byExpiryIndex == old(n.byExpiryIndex)
    {
      n.details := details;
      assert byExpiry.Keys() == old(byExpiry.Keys());
      if n.details.duration >= 0 {
        n.expiry := now + n.details.duration;
        assert byExpiry.Keys() == old(byExpiry.Keys());
        byExpiry.Push(n);
      }
    }

    method Refresh(now: int, token: string, duration: int) returns (r: Result<LockDetails>)
      requires Valid()
      modifies this, repr, byExpiry
      ensures Valid() && repr == old(repr) && gen == old(gen)
      ensures (Locks(), r) == LockSpec.Refresh(old(Locks()), now, token, duration)
      ensures NodesStayHeld({})
    {
      OperationsKeepHeld(Locks(), now, token, duration, "", "", []);
      r := RefreshLock(now, token, duration);
      HeldInTable({});
    }

    method RefreshLock(now: int, token: string, duration: int) returns (r: Result<LockDetails>)
      requires Valid()
      modifies this, repr, byExpiry
      ensures Valid() && repr == old(repr) && gen == old(gen) && TokensStay()
      ensures (Locks(), r) == LockSpec.Refresh(old(Locks()), now, token, duration)
    {
      CollectExpiredNodes(now);
      if token !in byToken {
        return Err(NoSuchLock);
      }
      var n := byToken[token];
      assert TokenOk(token);
      if n.held {
        return Err(Locked);
      }
      Placed(n);
      Renew(n, now, duration);
      return Ok(n.details);
    }

    method Unlock(now: int, token: string) returns (err: Option<LockError>)
      requires Valid()
      modifies this, repr, byExpiry
      ensures Valid() && repr == old(repr) && gen == old(gen)
      ensures (Locks(), err) == LockSpec.Unlock(old(Locks()), now, token)
      ensures NodesStayHeld({})
    {
      OperationsKeepHeld(Locks(), now, token, 0, "", "", []);
      err := DropLock(now, token);
      HeldInTable({});
    }

    method DropLock(now: int, token: string) returns (err: Option<LockError>)
      requires Valid()
      modifies this, repr, byExpiry
      ensures Valid() && repr == old(repr) && gen == old(gen) && TokensStay()
      ensures (Locks(), err) == LockSpec.Unlock(old(Locks()), now, token)
    {
      CollectExpiredNodes(now);
      if token !in byToken {
        return Some(NoSuchLock);
      }
      var n := byToken[token];
      assert TokenOk(token);
      if n.held {
        return Some(Locked);
      }
      Remove(n);
      return None;
    }

    /*** Confirm ***/

    /** The node that the first usable condition names, or null. */
    method Lookup(name: string, conds: seq<Condition>) returns (n: Node?)
      requires Valid()
      ensures n != null ==> Live(n) && !n.held && LockSpec.Lookup(Locks(), name, conds) == Some(n.token)
      ensures n == null ==> LockSpec.Lookup(Locks(), name, conds) == None
    {
      for i := 0 to |conds|
        invariant LockSpec.Lookup(Locks(), name, conds) == LockSpec.Lookup(Locks(), name, conds[i..])
      {
        var c := conds[i];
        assert conds[i..][0] == c && conds[i..][1..] == conds[i + 1..];
        if c.token !in byToken || byToken[c.token].held {
          continue;
        }
        n := byToken[c.token];
        assert TokenOk(c.token);
        if name == n.details.root {
          return;
        }
        if n.details.zeroDepth {
          continue;
        }
        if n.details.root == "/" || n.details.root + "/" <= name {
          return;
        }
      }
      return null;
    }

    static ghost function TokenOf(n: Node?): set<string>
      reads n
    {
      if n == null then {} else {n.token}
    }

    /** The tokens of a claim's nodes. */
    static ghost function Tokens(c: Claim): set<string>
      reads c.n0, c.n1
    {
      TokenOf(c.n0) + TokenOf(c.n1)
    }

    /** What the release callback may rely on. */
    ghost predicate Claimed(c: Claim)
      reads this, repr, byToken.Values, byExpiry, byExpiry.nodes, c.n0, c.n1
    {
      Valid() && HoldsClaim(c)
    }

    /** The nodes of the claim, one or two, are listed and held. */
    ghost predicate HoldsClaim(c: Claim)
      reads this, c.n0, c.n1
    {
      && (c.n0 != null ==> Listed(c.n0) && c.n0.held)
      && (c.n1 != null ==> Listed(c.n1) && c.n1.held)
      && (c.n0 != null ==> c.n0 != c.n1)
    }

    method Confirm(now: int, name0: string, name1: string, conds: seq<Condition>) returns (r: Option<Claim>)
      requires Valid()
      modifies this, repr, byExpiry
      ensures Valid() && repr == old(repr) && gen == old(gen)
      ensures r.Some? ==> Claimed(r.value)
      ensures (Locks(), if r.Some? then Some(Tokens(r.value)) else None)
        == LockSpec.Confirm(old(Locks()), now, name0, name1, conds)
      ensures NodesStayHeld({})
    {
      OperationsKeepHeld(Locks(), now, "", 0, name0, name1, conds);
      r := ClaimBoth(now, name0, name1, conds);
      HeldInTable({});
    }

    method ClaimBoth(now: int, name0: string, name1: string, conds: seq<Condition>) returns (r: Option<Claim>)
      requires Valid()
      modifies this, repr, byExpiry
      ensures Valid() && repr == old(repr) && gen == old(gen) && TokensStay()
      ensures r.Some? ==> Claimed(r.value)
      ensures (Locks(), if r.Some? then Some(Tokens(r.value)) else None)
        == LockSpec.Confirm(old(Locks()), now, name0, name1, conds)
    {
      CollectExpiredNodes(now);
      var ok, c := Find(name0, name1, conds);
      if !ok {
        return None;
      }
      HoldBoth(c);
      return Some(c);
    }

    /** The one or two nodes to hold, the same node never twice. */
    method Find(name0: string, name1: string, conds: seq<Condition>) returns (ok: bool, c: Claim)
      requires Valid()
      ensures !ok ==> Claims(Locks(), name0, name1, conds) == None
      ensures ok ==> Claims(Locks(), name0, name1, conds) == Some(Tokens(c))
      ensures ok ==> Claimable(c)
    {
      c := Claim(null, null);
      var ok0, n0 := FindOne(name0, conds);
      if !ok0 {
        return false, c;
      }
      var ok1, n1 := FindOne(name1, conds);
      if !ok1 {
        return false, c;
      }
      if n1 == n0 {
        assert TokenOf(n0) + TokenOf(null) == TokenOf(n0) + TokenOf(n1);
        return true, Claim(n0, null);
      }
      return true, Claim(n0, n1);
    }

    /** The node that claims name, or none for the empty name. */
    method FindOne(name: string, conds: seq<Condition>) returns (ok: bool, n: Node?)
      requires Valid()
      ensures !ok ==> ClaimOne(Locks(), name, conds) == None
      ensures ok ==> ClaimOne(Locks(), name, conds) == Some(TokenOf(n))
      ensures ok && n != null ==> Listed(n) && !n.held
    {
      if name == "" {
        return true, null;
      }
      n := Lookup(SlashClean(name), conds);
      ok := n != null;
    }

    ghost predicate Claimable(c: Claim)
      reads this, repr, byToken.Values, byExpiry, byExpiry.nodes, c.n0, c.n1
    {
      && Valid()
      && (c.n0 != null ==> Listed(c.n0) && !c.n0.held)
      && (c.n1 != null ==> Listed(c.n1) && !c.n1.held)
      && (c.n0 != null ==> c.n0 != c.n1)
    }

    lemma ListedInRepr(n: Node?)
      requires Valid() && (n != null ==> Listed(n))
      ensures n != null ==> n in repr
    {
      if n != null {
        assert TokenOk(n.token);
      }
    }

    method HoldIf(n: Node?)
      requires Valid() && (n != null ==> Listed(n) && !n.held)
      modifies repr`held, repr`byExpiryIndex, byExpiry
      ensures Valid() && (n != null ==> n.held)
      ensures forall x :: x in repr && x != n ==> x.held == old(x.held)
      ensures Locks() == SetHeld(old(Locks()), TokenOf(n), true)
    {
      SetHeldCompose(Locks(), {}, {}, true);
      if n != null {
        Placed(n);
        Hold(n);
      }
    }

    method UnholdIf(n: Node?)
      requires Valid() && (n != null ==> Listed(n) && n.held)
      modifies repr`held, repr`byExpiryIndex, byExpiry
      ensures Valid()
      ensures forall x :: x in repr && x != n ==> x.held == old(x.held)
      ensures Locks() == SetHeld(old(Locks()), TokenOf(n), false)
    {
      SetHeldCompose(Locks(), {}, {}, false);
      if n != null {
        Placed(n);
        Unhold(n);
      }
    }

    method HoldBoth(c: Claim)
      requires Claimable(c)
      modifies repr`held, repr`byExpiryIndex, byExpiry
      ensures Claimed(c)
      ensures Tokens(c) == old(Tokens(c)) && Locks() == SetHeld(old(Locks()), Tokens(c), true)
    {
      HoldNodes(c);
    }

    method HoldNodes(c: Claim)
      requires Claimable(c)
      modifies repr`held, repr`byExpiryIndex, byExpiry
      ensures Valid() && (c.n0 != null ==> c.n0.held) && (c.n1 != null ==> c.n1.held)
      ensures Locks() == SetHeld(old(Locks()), old(Tokens(c)), true)
    {
      ListedInRepr(c.n0);
      ListedInRepr(c.n1);
      SetHeldCompose(Locks(), TokenOf(c.n0), TokenOf(c.n1), true);
      HoldIf(c.n0);
      HoldIf(c.n1);
    }

    /** The release callback of a claim, which finds both nodes held. */
    method Release(c: Claim)
      requires Claimed(c)
      modifies repr`held, repr`byExpiryIndex, byExpiry
      ensures Valid() && repr == old(repr) && gen == old(gen)
      ensures Locks() == LockSpec.Release(old(Locks()), old(Tokens(c)))
      ensures NodesStayHeld(old(Tokens(c)))
    {
      ReleaseKeepsOthersHeld(Locks(), Tokens(c));
      UnholdBoth(c);
      HeldInTable(old(Tokens(c)));
    }

    method UnholdBoth(c: Claim)
      requires Claimed(c)
      modifies repr`held, repr`byExpiryIndex, byExpiry
      ensures Valid() && Locks() == LockSpec.Release(old(Locks()), old(Tokens(c)))
    {
      ListedInRepr(c.n0);
      ListedInRepr(c.n1);
      SetHeldCompose(Locks(), TokenOf(c.n1), TokenOf(c.n0), false);
      assert TokenOf(c.n1) + TokenOf(c.n0) == Tokens(c);
      UnholdIf(c.n1);
      UnholdIf(c.n0);
    }

    /*** Create ***/

    /** A free name is not locked, so its node, old or new, is out of the heap. */
    lemma FreeUnlocked(d: LockDetails)
      requires Valid() && Clean(d.root) && Free(Locks(), d)
      ensures d.root in byName ==> Blank(byName[d.root]) && byName[d.root] !in byExpiry.nodes
    {
      if d.root in byName {
        assert NameOk(d.root);
        var n := byName[d.root];
        FreeIsNoConflict(d);
        if n.token != "" {
          assert Conflict(d, byToken[n.token].details);
          assert false;
        }
      }
    }

    lemma FreshToken()
      requires Valid()
      ensures FormatUint(gen + 1) !in byToken
    {
      FormatUintRoundTrip(gen + 1);
      assert TokenOk(FormatUint(gen + 1));
    }

    lemma HeapInRepr()
      requires Valid()
      ensures byExpiry.Members() <= repr
    {
      forall x | x in byExpiry.nodes ensures x in repr {
        var i :| 0 <= i < |byExpiry.nodes| && byExpiry.nodes[i] == x;
        assert SlotOk(i);
      }
    }

    method Create(now: int, details0: LockDetails) returns (r: Result<string>)
      requires Valid()
      modifies this, repr, byExpiry
      ensures Valid() && old(repr) <= repr && fresh(repr - old(repr))
      ensures gen == old(gen) + if r.Ok? then 1 else 0
      ensures (Locks(), r) == LockSpec.Create(old(Locks()), now, details0, FormatUint(old(gen) + 1))
      ensures NodesStayHeld({})
    {
      FreshToken();
      CreateKeepsHeld(Locks(), now, details0, FormatUint(gen + 1));
      r := CreateLock(now, details0);
      HeldInTable({});
    }

    method CreateLock(now: int, details0: LockDetails) returns (r: Result<string>)
      requires Valid() && FormatUint(gen + 1) !in byToken
      modifies this, repr, byExpiry
      ensures Valid() && old(repr) <= repr && fresh(repr - old(repr)) && TokensStay()
      ensures gen == old(gen) + if r.Ok? then 1 else 0
      ensures (Locks(), r) == LockSpec.Create(old(Locks()), now, details0, FormatUint(old(gen) + 1))
    {
      CollectExpiredNodes(now);
      var details := details0.(root := SlashClean(details0.root));
      SlashCleanIsClean(details0.root);
      r := CreateLive(now, details);
    }

    /** Creates a lock when the expired ones are gone. */
    method CreateLive(now: int, details: LockDetails) returns (r: Result<string>)
      requires Valid() && Clean(details.root)
      modifies this, repr, byExpiry
      ensures Valid() && old(repr) <= repr && fresh(repr - old(repr))
      ensures gen == old(gen) + if r.Ok? then 1 else 0
      ensures var token := FormatUint(old(gen) + 1);
        && r == (if Free(old(Locks()), details) then Ok(token) else Err(Locked))
        && (r.Ok? ==> Locks() == old(Locks())[token := NewLock(details, now)])
        && (r.Ok? ==> token in byToken && byToken == old(byToken)[token := byToken[token]])
      ensures r.Err? ==> Locks() == old(Locks()) && byToken == old(byToken)
    {
      var ok := CanCreate(details.root, details.zeroDepth);
      if !ok {
        return Err(Locked);
      }
      var token := Install(now, details);
      return Ok(token);
    }

    /** What locking a free name starts from. */
    lemma Ready(d: LockDetails, now: int)
      requires Valid() && Clean(d.root) && Free(Locks(), d)
      ensures byExpiry.Members() <= repr
      ensures FormatUint(gen + 1) !in byToken && ParseUint(FormatUint(gen + 1)) == gen + 1
      ensures d.root in byName ==> Blank(byName[d.root]) && byName[d.root] !in byExpiry.nodes
      ensures d.root in byName ==> forall k :: k in byToken ==> byToken[k] != byName[d.root]
      ensures forall k :: k in byToken ==> byToken[k] in repr
      ensures RefsExact(Locks()[FormatUint(gen + 1) := NewLock(d, now)], CountedUp(Counts(), Chain(d.root)))
    {
      FreeUnlocked(d);
      FreshToken();
      FormatUintRoundTrip(gen + 1);
      HeapInRepr();
      RefsAdded(Locks(), Counts(), FormatUint(gen + 1), NewLock(d, now));
      assert forall k :: k in byToken ==> TokenOk(k);
    }

    method Install(now: int, details: LockDetails) returns (token: string)
      requires Valid() && Clean(details.root) && Free(Locks(), details)
      modifies this, repr, byExpiry
      ensures Valid() && old(repr) <= repr && fresh(repr - old(repr))
      ensures gen == old(gen) + 1 && token == FormatUint(gen)
      ensures Locks() == old(Locks())[token := NewLock(details, now)]
      ensures token in byToken && byToken == old(byToken)[token := byToken[token]]
    {
      var n := Prepare(details, now);
      token := Assign(n, details, now);
      InstalledOk(n);
    }

    /** Counts the new lock in; its node, old or new, is blank and out of the heap. */
    method Prepare(details: LockDetails, now: int) returns (n: Node)
      requires Valid() && Clean(details.root) && Free(Locks(), details)
      modifies `byName, `repr, repr`refCount
      ensures Shaped() && SameNodes() && old(byName.Keys) <= byName.Keys
      ensures old(repr) <= repr && fresh(repr - old(repr))
      ensures details.root in byName && n == byName[details.root]
      ensures Blank(n) && n !in byExpiry.nodes && byExpiry.Valid() && byExpiry.Members() <= old(repr)
      ensures FormatUint(gen + 1) !in byToken && ParseUint(FormatUint(gen + 1)) == gen + 1
      ensures forall k :: k in byToken ==> byToken[k] != n
      ensures RefsExact(old(Locks())[FormatUint(gen + 1) := NewLock(details, now)], Counts())
    {
      Ready(details, now);
      n := Recount(details.root);
    }

    /** Turns a blank, counted node into a lock with the next token. */
    method Assign(n: Node, details: LockDetails, now: int) returns (token: string)
      requires Shaped() && byExpiry.Valid()
      requires Blank(n) && n !in byExpiry.nodes && n in repr && details.root == n.details.root
      modifies `gen, `byToken, n`token, n`details, n`expiry, n`byExpiryIndex, byExpiry, byExpiry.Members()`byExpiryIndex
      ensures gen == old(gen) + 1 && token == FormatUint(gen)
      ensures n.token == token && byToken == old(byToken)[token := n]
      ensures n.details == details && LockAt(n) == NewLock(details, now)
      ensures byExpiry.Valid() && InHeapWhenDue(n)
      ensures byExpiry.Members() - {n} == old(byExpiry.Members()) - {n}
      ensures Shaped() && Counts() == old(Counts())
    {
      gen := gen + 1;
      token := FormatUint(gen);
      n.token := token;
      byToken := byToken[token := n];
      assert byExpiry.Keys() == old(byExpiry.Keys());
      Schedule(n, details, now);
      assert Counts() == old(Counts());
    }

    method Recount(name: string) returns (n: Node)
      requires Shaped() && Clean(name) && byExpiry.Valid()
      modifies `byName, `repr, repr`refCount
      ensures Shaped() && SameNodes() && old(byName.Keys) <= byName.Keys
      ensures old(repr) <= repr && fresh(repr - old(repr))
      ensures Counts() == CountedUp(old(Counts()), Chain(name))
      ensures name in byName && n == byName[name]
      ensures Locks() == old(Locks()) && byExpiry.Valid()
    {
      n := CountUp(name);
      assert Locks() == old(Locks());
      assert byExpiry.Keys() == old(byExpiry.Keys());
      forall s | s in old(byName) ensures s in byName {
        ChainDistinct(name);
        CountedUpAt(old(Counts()), Chain(name), s);
        assert s in Counts();
      }
    }

    /** n has become the node of a new lock, and other nodes have only been counted. */
    twostate predicate Installed(new n: Node)
      reads this, repr, byExpiry, n
    {
      && n.token !in old(byToken) && n.token != "" && byToken == old(byToken)[n.token := n]
      && ParseUint(n.token) <= gen && old(gen) <= gen
      && old(repr) <= repr && n in repr && !n.held
      && n.details.root in byName && byName[n.details.root] == n
      && old(byName.Keys) <= byName.Keys
      && old(byExpiry.Members()) <= old(repr)
      && byExpiry.Members() - {n} == old(byExpiry.Members()) - {n}
      && (forall s :: s in byName ==>
            if s in old(byName) then byName[s] == old(byName)[s]
            else byName[s] in repr && byName[s] !in old(repr) && (byName[s] != n ==> Blank(byName[s])))
      && (forall x :: x in old(repr) && x != n ==>
            && x.details == old(x.details) && x.expiry == old(x.expiry) && x.held == old(x.held)
            && x.token == old(x.token)
            && (x !in old(byExpiry.Members()) ==> x.byExpiryIndex == old(x.byExpiryIndex)))
    }

    twostate lemma InstalledOk(new n: Node)
      requires old(Valid()) && Installed(n) && Clean(n.details.root)
      requires InHeapWhenDue(n) && byExpiry.Valid() && Shaped()
      requires RefsExact(old(Locks())[n.token := LockAt(n)], Counts())
      requires forall k :: k in old(byToken) ==> old(byToken)[k] != n
      ensures Valid() && Locks() == old(Locks())[n.token := LockAt(n)]
    {
      InstalledTable(n);
      InstalledTokens(n);
      InstalledNames(n);
      InstalledSlots(n);
    }

    twostate lemma InstalledTable(new n: Node)
      requires old(Valid()) && Installed(n)
      requires forall k :: k in old(byToken) ==> old(byToken)[k] != n
      ensures Locks() == old(Locks())[n.token := LockAt(n)]
    {
      forall k | k in byToken
        ensures Locks()[k] == if k == n.token then LockAt(n) else old(Locks())[k]
      {
        assert old(TokenOk(k));
      }
    }

    twostate lemma InstalledTokens(new n: Node)
      requires old(Valid()) && Installed(n) && Clean(n.details.root)
      requires forall k :: k in old(byToken) ==> old(byToken)[k] != n
      ensures forall k :: TokenOk(k)
    {
      forall k ensures TokenOk(k) {
        assert old(TokenOk(k));
      }
    }

    twostate lemma InstalledNames(new n: Node)
      requires old(Valid()) && Installed(n) && InHeapWhenDue(n)
      requires forall k :: k in old(byToken) ==> old(byToken)[k] != n
      ensures forall s :: NameOk(s)
    {
      StillPlaced(n);
      assert forall x :: x in old(byExpiry.nodes) ==> x in old(byExpiry.Members());
      forall s ensures NameOk(s) {
        assert old(NameOk(s));
      }
    }

    twostate lemma InstalledSlots(new n: Node)
      requires old(Valid()) && Installed(n)
      ensures forall i :: SlotOk(i)
    {
      StillPlaced(n);
      forall i ensures SlotOk(i) {
        if 0 <= i < |byExpiry.nodes| && byExpiry.nodes[i] != n {
          var x := byExpiry.nodes[i];
          assert x in old(byExpiry.nodes);
          var j :| 0 <= j < old(|byExpiry.nodes|) && old(byExpiry.nodes[j]) == x;
          assert old(SlotOk(j));
        }
      }
    }
  }
}

/** Resource names of the WebDAV lock table: slash-separated strings, cleaned so
    that they start with a slash, hold no empty, "." or ".." element and do not
    end in a slash (the root "/" aside). */
module Names {

  /** True of the strings that slashClean returns, as far as the lock table cares. */
  predicate Clean(s: string) {
    && |s| > 0
    && s[0] == '/'
    && (|s| > 1 ==> s[|s| - 1] != '/')
    && (forall i :: 0 < i < |s| && s[i] == '/' ==> s[i - 1] != '/')
  }

  /** Resource p is root itself or lies below it: the reference notion of
      "descendant", written with a plain prefix test. */
  predicate Within(root: string, p: string) {
    p == root || root == "/" || root + "/" <= p
  }

  /** The index of the last slash of s, or -1. */
  function LastSlash(s: string): (k: int)
    ensures -1 <= k < |s|
    ensures k >= 0 ==> s[k] == '/'
    ensures forall i :: k < i < |s| ==> s[i] != '/'
  {
    if s == "" then -1
    else if s[|s| - 1] == '/' then |s| - 1
    else LastSlash(s[..|s| - 1])
  }

  /** One step of walkToRoot. */
  function Parent(name: string): (q: string)
    requires Clean(name) && name != "/"
    ensures Clean(q) && |q| < |name|
  {
    var k := LastSlash(name);
    assert k >= 0 by { assert name[0] == '/'; }
    if k == 0 then "/" else
      assert name[..k][k - 1] == name[k - 1];
      name[..k]
  }

  /** The names that walkToRoot visits, in order. */
  function Chain(name: string): (c: seq<string>)
    requires Clean(name)
    ensures |c| > 0 && c[0] == name
    ensures forall i :: 0 <= i < |c| ==> Clean(c[i]) && |c[i]| <= |name|
    decreases |name|
  {
    if name == "/" then [name] else [name] + Chain(Parent(name))
  }

  /** walkToRoot with its callback pulled out: the names it would be called on. */
  method WalkToRoot(name: string) returns (names: seq<string>)
    requires Clean(name)
    ensures names == Chain(name)
  {
    var name0 := name;
    names := [];
    while true
      invariant Clean(name0) && names + Chain(name0) == Chain(name)
      decreases |name0|
    {
      names := names + [name0];
      if name0 == "/" {
        break;
      }
      name0 := Parent(name0);
    }
  }

  lemma WithinParent(root: string, name: string)
    requires Clean(root) && Clean(name) && name != "/" && root != name
    ensures Within(root, name) <==> Within(root, Parent(name))
  {
    var k := LastSlash(name);
    assert name[0] == '/';
    if root != "/" {
      if root + "/" <= name {
        assert name[|root|] == (root + "/")[|root|] == '/';
        assert |root| <= k;
        assert root == (root + "/")[..|root|] == name[..|root|];
        if |root| < k {
          assert root + "/" == name[..|root| + 1] <= name[..k];
        }
      }
      if Within(root, Parent(name)) {
        if root == Parent(name) {
          assert root + "/" == name[..k + 1];
        }
      }
    }
  }

  /** Walking up from p meets exactly the names that p lies within. */
  lemma {:induction false} ChainIsWithin(root: string, p: string)
    requires Clean(root) && Clean(p)
    ensures root in Chain(p) <==> Within(root, p)
    decreases |p|
  {
    if p == "/" {
    } else if root != p {
      WithinParent(root, p);
      ChainIsWithin(root, Parent(p));
    }
  }

  /** The walk never meets a name twice. */
  lemma {:induction false} ChainDistinct(p: string)
    requires Clean(p)
    ensures forall i, j :: 0 <= i < j < |Chain(p)| ==> Chain(p)[i] != Chain(p)[j]
    decreases |p|
  {
    if p != "/" {
      ChainDistinct(Parent(p));
    }
  }

  /** Two names that share a descendant are comparable. */
  lemma WithinComparable(a: string, b: string, c: string)
    requires Clean(a) && Clean(b) && Clean(c)
    requires Within(a, c) && Within(b, c) && |a| <= |b|
    ensures Within(a, b)
  {
    if a != "/" && b != "/" && a != c {
      var ca := a + "/";
      assert a + "/" <= c;
      if b == c {
      } else {
        assert b + "/" <= c;
        if |a| == |b| {
          assert a == c[..|a|] == b;
        } else {
          assert a + "/" == c[..|a| + 1];
          assert b == c[..|b|];
        }
      }
    }
  }

  /*** slashClean: a rooted path.Clean ***/

  /** The elements of s between slashes; "" yields one empty element. */
  function Split(s: string): (parts: seq<string>)
    ensures |parts| > 0
    ensures forall i :: 0 <= i < |parts| ==> '/' !in parts[i]
  {
    if s == "" then [""]
    else if s[0] == '/' then [""] + Split(s[1..])
    else
      var rest := Split(s[1..]);
      [[s[0]] + rest[0]] + rest[1..]
  }

  predicate Element(e: string) {
    e != "" && e != "." && e != ".." && '/' !in e
  }

  predicate Elements(parts: seq<string>) {
    forall i :: 0 <= i < |parts| ==> Element(parts[i])
  }

  /** Drops empty and "." elements and lets ".." remove its predecessor; ".." at
      the root is dropped. */
  function Resolve(parts: seq<string>, stack: seq<string>): (r: seq<string>)
    requires Elements(stack)
    requires forall i :: 0 <= i < |parts| ==> '/' !in parts[i]
    ensures Elements(r)
    decreases |parts|
  {
    if parts == [] then stack
    else if parts[0] == "" || parts[0] == "." then Resolve(parts[1..], stack)
    else if parts[0] == ".." then Resolve(parts[1..], if stack == [] then [] else stack[..|stack| - 1])
    else Resolve(parts[1..], stack + [parts[0]])
  }

  function Join(parts: seq<string>): string {
    if parts == [] then "" else "/" + parts[0] + Join(parts[1..])
  }

  function Render(parts: seq<string>): string {
    if parts == [] then "/" else Join(parts)
  }

  function SlashClean(name: string): (r: string) {
    Render(Resolve(Split(name), []))
  }

  lemma {:induction false} JoinShape(parts: seq<string>)
    requires Elements(parts) && parts != []
    ensures var s := Join(parts);
      |s| > 1 && s[0] == '/' && Clean(s)
  {
    var e := parts[0];
    var t := Join(parts[1..]);
    var s := "/" + e + t;
    assert s[1..|e| + 1] == e;
    if parts[1..] == [] {
      assert t == "";
      assert s == "/" + e;
    } else {
      JoinShape(parts[1..]);
      assert s[|s| - 1] == t[|t| - 1];
      forall i | 0 < i < |s| && s[i] == '/' ensures s[i - 1] != '/' {
        if i <= |e| {
          assert false;
        } else {
          assert s[i] == t[i - 1 - |e|];
          if i == |e| + 1 {
            assert s[i - 1] == e[|e| - 1];
            assert e[|e| - 1] in e;
          } else {
            assert s[i - 1] == t[i - 2 - |e|];
          }
        }
      }
    }
  }

  lemma {:induction false} SplitNoSlash(e: string, rest: string)
    requires '/' !in e
    ensures Split(e + "/" + rest) == [e] + Split(rest)
    ensures Split(e) == [e]
  {
    if e == "" {
      assert e + "/" + rest == "/" + rest;
    } else {
      assert (e + "/" + rest)[1..] == e[1..] + "/" + rest;
      assert forall c :: c in e[1..] ==> c in e;
      SplitNoSlash(e[1..], rest);
      assert e[0] in e;
      assert [e[0]] + e[1..] == e;
    }
  }

  lemma {:induction false} SplitJoin(parts: seq<string>)
    requires Elements(parts)
    ensures Split(Join(parts)) == [""] + parts
  {
    if parts == [] {
    } else {
      var e := parts[0];
      var t := Join(parts[1..]);
      SplitJoin(parts[1..]);
      assert ("/" + e + t)[1..] == e + t;
      if parts[1..] == [] {
        assert e + t == e;
        SplitNoSlash(e, "");
        assert parts == [e];
      } else {
        JoinShape(parts[1..]);
        assert e + t == e + "/" + t[1..];
        SplitNoSlash(e, t[1..]);
        assert Split(t) == [""] + Split(t[1..]);
        assert Split(t)[1..] == Split(t[1..]) && Split(t)[1..] == parts[1..];
      }
      assert [e] + parts[1..] == parts;
    }
  }

  /** Whatever the client sent, the table only ever sees clean names: the root, or names whose
      elements are neither empty nor "." nor "..". */
  lemma SlashCleanIsClean(name: string)
    ensures Clean(SlashClean(name))
    ensures SlashClean(name) == "/" || (Split(SlashClean(name))[0] == "" && Elements(Split(SlashClean(name))[1..]))
  {
    var parts := Resolve(Split(name), []);
    if parts != [] {
      JoinShape(parts);
      SplitJoin(parts);
      assert ([""] + parts)[1..] == parts;
    }
  }

  lemma {:induction false} ResolveElements(parts: seq<string>, stack: seq<string>)
    requires Elements(parts) && Elements(stack)
    ensures Resolve(parts, stack) == stack + parts
  {
    if parts == [] {
    } else {
      ResolveElements(parts[1..], stack + [parts[0]]);
      assert stack + [parts[0]] + parts[1..] == stack + parts;
    }
  }

  /** A name whose elements are none of these is left as it is. */
  lemma SlashCleanKeeps(parts: seq<string>)
    requires Elements(parts)
    ensures SlashClean(Render(parts)) == Render(parts)
  {
    if parts == [] {
      assert Split("/") == ["", ""];
      assert Resolve(["", ""], []) == Resolve([""], []) == Resolve([], []);
    } else {
      SplitJoin(parts);
      assert ([""] + parts)[1..] == parts;
      ResolveElements(parts, []);
      assert [] + parts == parts;
    }
  }

  /** Cleaning is idempotent, so a root that came back from the table names the
      same resource when it is presented again. */
  lemma SlashCleanIdempotent(name: string)
    ensures SlashClean(SlashClean(name)) == SlashClean(name)
  {
    SlashCleanKeeps(Resolve(Split(name), []));
  }

  lemma SplitFirst(c: char, rest: string)
    ensures Split([c] + rest) ==
      if c == '/' then [""] + Split(rest) else [[c] + Split(rest)[0]] + Split(rest)[1..]
  {
    assert ([c] + rest)[1..] == rest;
  }

  lemma Prepended(c: char, p: seq<string>, q: seq<string>)
    requires p != []
    ensures var whole := if c == '/' then [""] + p else [[c] + p[0]] + p[1..];
      whole + q == if c == '/' then [""] + (p + q) else [[c] + (p + q)[0]] + (p + q)[1..]
  {
    assert (p + q)[1..] == p[1..] + q;
  }

  lemma {:induction false} SplitAt(a: string, b: string)
    ensures Split(a + "/" + b) == Split(a) + Split(b)
  {
    if a == "" {
      assert a + "/" + b == ['/'] + b;
      SplitFirst('/', b);
    } else {
      var c, tail := a[0], a[1..];
      assert a == [c] + tail;
      assert a + "/" + b == [c] + (tail + "/" + b);
      SplitFirst(c, tail);
      SplitFirst(c, tail + "/" + b);
      SplitAt(tail, b);
      Prepended(c, Split(tail), Split(b));
    }
  }

  lemma {:induction false} ResolveInTwo(p: seq<string>, q: seq<string>, stack: seq<string>)
    requires Elements(stack)
    requires forall i :: 0 <= i < |p| ==> '/' !in p[i]
    requires forall i :: 0 <= i < |q| ==> '/' !in q[i]
    ensures Resolve(p + q, stack) == Resolve(q, Resolve(p, stack))
    decreases |p|
  {
    if p == [] {
      assert p + q == q;
    } else {
      assert (p + q)[1..] == p[1..] + q;
      if p[0] == "" || p[0] == "." {
        ResolveInTwo(p[1..], q, stack);
      } else if p[0] == ".." {
        ResolveInTwo(p[1..], q, if stack == [] then [] else stack[..|stack| - 1]);
      } else {
        ResolveInTwo(p[1..], q, stack + [p[0]]);
      }
    }
  }

  /** The elements of a + "/" + b are resolved one after the other. */
  lemma ResolveAt(a: string, b: string, stack: seq<string>)
    requires Elements(stack)
    ensures Resolve(Split(a + "/" + b), stack) == Resolve(Split(b), Resolve(Split(a), stack))
  {
    SplitAt(a, b);
    ResolveInTwo(Split(a), Split(b), stack);
  }

  lemma ElementPushed(e: string, stack: seq<string>)
    requires Elements(stack) && Element(e)
    ensures Resolve(Split(e), stack) == stack + [e]
  {
    SplitNoSlash(e, "");
    assert Resolve([e][1..], stack + [e]) == stack + [e];
  }

  lemma NothingPushed(e: string, stack: seq<string>)
    requires Elements(stack) && (e == "" || e == ".")
    ensures Resolve(Split(e), stack) == stack
  {
    SplitNoSlash(e, "");
    assert [e][1..] == [];
  }

  lemma DotDotPops(stack: seq<string>)
    requires Elements(stack)
    ensures Resolve(Split(".."), stack) == if stack == [] then [] else stack[..|stack| - 1]
  {
    SplitNoSlash("..", "");
    assert [".."][1..] == [];
  }

  /** Text with one more element in the middle. */
  lemma ResolveBetween(a: string, e: string, b: string)
    ensures Resolve(Split(a + "/" + e + "/" + b), []) ==
      Resolve(Split(b), Resolve(Split(e), Resolve(Split(a), [])))
  {
    ResolveAt(a, e + "/" + b, []);
    ResolveAt(e, b, Resolve(Split(a), []));
    assert a + "/" + (e + "/" + b) == a + "/" + e + "/" + b;
  }

  /** A slash at either end, a doubled slash and "." mean nothing. */
  lemma SlashCleanDrops(a: string, b: string)
    ensures SlashClean(a + "//" + b) == SlashClean(a + "/" + b)
    ensures SlashClean(a + "/./" + b) == SlashClean(a + "/" + b)
    ensures SlashClean("/" + a) == SlashClean(a)
    ensures SlashClean(a + "/") == SlashClean(a)
  {
    var sa := Resolve(Split(a), []);
    ResolveAt(a, b, []);
    ResolveBetween(a, "", b);
    assert a + "/" + "" + "/" + b == a + "//" + b;
    ResolveBetween(a, ".", b);
    assert a + "/" + "." + "/" + b == a + "/./" + b;
    NothingPushed("", sa);
    NothingPushed(".", sa);
    NothingPushed("", []);
    ResolveAt("", a, []);
    assert "" + "/" + a == "/" + a;
    ResolveAt(a, "", []);
    assert a + "/" + "" == a + "/";
  }

  /** ".." undoes the element before it. */
  lemma SlashCleanGoesUp(a: string, e: string, b: string)
    requires Element(e)
    ensures SlashClean(a + "/" + e + "/../" + b) == SlashClean(a + "/" + b)
  {
    var sa := Resolve(Split(a), []);
    var ae := a + "/" + e;
    ResolveAt(a, b, []);
    assert Resolve(Split(ae), []) == sa + [e] by {
      ElementPushed(e, sa);
      ResolveAt(a, e, []);
    }
    DotDotPops(sa + [e]);
    assert (sa + [e])[..|sa + [e]| - 1] == sa;
    ResolveBetween(ae, "..", b);
    assert ae + "/" + ".." + "/" + b == a + "/" + e + "/../" + b;
  }

  /** Above the root there is nothing. */
  lemma SlashCleanAtRoot(b: string)
    ensures SlashClean("../" + b) == SlashClean(b)
  {
    DotDotPops([]);
    ResolveAt("..", b, []);
    assert ".." + "/" + b == "../" + b;
  }
}

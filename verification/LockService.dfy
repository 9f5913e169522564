/** The lock system in use: any run of its operations, with the release callbacks of
    confirmations called at any later time, does what LockRuns says. */
module LockService {
  import opened Wrappers
  import opened ByExpiry
  import opened LockSpec
  import opened LockRuns
  import opened Tokens
  import opened MemLS

  /** The callbacks that were not called yet, each under a number. */
  type Claims = map<nat, Claim>

  ghost function ClaimNodes(claims: Claims): set<object> {
    (set i | i in claims && claims[i].n0 != null :: claims[i].n0 as object)
    + (set i | i in claims && claims[i].n1 != null :: claims[i].n1 as object)
  }

  ghost function Held(claims: Claims): (m: map<nat, set<string>>)
    reads ClaimNodes(claims)
    ensures m.Keys == claims.Keys && forall i :: i in m ==> m[i] == LockSystem.Tokens(claims[i])
  {
    map i | i in claims :: LockSystem.Tokens(claims[i])
  }

  class Service {
    const ls: LockSystem

    constructor (seed: nat)
      ensures ls.Valid() && ls.Locks() == map[] && ls.gen == seed
      ensures fresh(ls) && fresh(ls.repr) && fresh(ls.byExpiry)
    {
      ls := new LockSystem(seed);
    }

    ghost predicate ClaimsOk(claims: Claims)
      reads ls, ClaimNodes(claims)
    {
      forall i :: i in claims ==> ls.HoldsClaim(claims[i])
    }

    ghost function Abs(claims: Claims): Sys
      reads ls, ls.byToken.Values, ClaimNodes(claims)
    {
      Sys(ls.Locks(), ls.gen, Held(claims))
    }

    ghost predicate Ready(claims: Claims)
      reads ls, ls.repr, ls.byToken.Values, ls.byExpiry, ls.byExpiry.nodes, ClaimNodes(claims)
    {
      ls.Valid() && ClaimsOk(claims)
    }

    /** Another operation leaves the outstanding callbacks, but for one of the released
        tokens, as they were. */
    twostate lemma ClaimsStay(claims: Claims, new released: set<string>)
      requires old(Ready(claims)) && ls.Valid() && ls.NodesStayHeld(released)
      ensures forall i :: i in claims && old(LockSystem.Tokens(claims[i])) !! released ==>
        ls.HoldsClaim(claims[i]) && LockSystem.Tokens(claims[i]) == old(LockSystem.Tokens(claims[i]))
      ensures (forall i :: i in claims ==> old(LockSystem.Tokens(claims[i])) !! released) ==>
        ClaimsOk(claims) && Held(claims) == old(Held(claims))
    {
      forall i | i in claims && old(LockSystem.Tokens(claims[i])) !! released
        ensures ls.HoldsClaim(claims[i]) && LockSystem.Tokens(claims[i]) == old(LockSystem.Tokens(claims[i]))
      {
        var c := claims[i];
        assert old(ls.HoldsClaim(c));
        assert c.n0 != null ==> old(ls.TokenOk(c.n0.token));
        assert c.n1 != null ==> old(ls.TokenOk(c.n1.token));
      }
    }

    lemma OneMore(claims: Claims, id: nat, c: Claim)
      requires Ready(claims) && id !in claims && ls.HoldsClaim(c)
      ensures Ready(claims[id := c]) && Held(claims[id := c]) == Held(claims)[id := LockSystem.Tokens(c)]
    {
    }

    /** Calls Confirm and keeps its callback under id. */
    method Confirm(claims: Claims, id: nat, now: int, name0: string, name1: string, conds: seq<Condition>)
        returns (claims': Claims)
      requires Ready(claims) && id !in claims
      modifies ls, ls.repr, ls.byExpiry
      ensures Ready(claims') && ls.repr == old(ls.repr)
      ensures Abs(claims') == Step(old(Abs(claims)), DoConfirm(id, now, name0, name1, conds))
    {
      ghost var s := Abs(claims);
      var r := ConfirmKeeping(claims, now, name0, name1, conds);
      ghost var tokens := if r.Some? then Some(LockSystem.Tokens(r.value)) else None;
      ConfirmStep(s, id, now, name0, name1, conds, ls.Locks(), tokens);
      claims' := claims;
      if r.Some? {
        OneMore(claims, id, r.value);
        claims' := claims[id := r.value];
      }
    }

    method ConfirmKeeping(claims: Claims, now: int, name0: string, name1: string, conds: seq<Condition>)
        returns (r: Option<Claim>)
      requires Ready(claims)
      modifies ls, ls.repr, ls.byExpiry
      ensures Ready(claims) && ls.repr == old(ls.repr) && ls.gen == old(ls.gen) && Held(claims) == old(Held(claims))
      ensures r.Some? ==> ls.HoldsClaim(r.value)
      ensures (ls.Locks(), if r.Some? then Some(LockSystem.Tokens(r.value)) else None)
        == LockSpec.Confirm(old(ls.Locks()), now, name0, name1, conds)
    {
      r := ls.Confirm(now, name0, name1, conds);
      ClaimsStay(claims, {});
    }

    /** Calls the callback kept under id; it finds its nodes held, whatever happened since. */
    method Release(claims: Claims, id: nat) returns (claims': Claims)
      requires Ready(claims) && id in claims
      requires forall i :: i in claims && i != id ==> Held(claims)[i] !! Held(claims)[id]
      modifies ls.repr, ls.byExpiry
      ensures Ready(claims') && ls.repr == old(ls.repr)
      ensures Abs(claims') == Step(old(Abs(claims)), DoRelease(id))
    {
      claims' := claims - {id};
      assert Held(claims') == Held(claims) - {id};
      ReleaseKeeping(claims', claims[id]);
    }

    method ReleaseKeeping(claims: Claims, c: Claim)
      requires Ready(claims) && ls.HoldsClaim(c) && forall i :: i in claims ==> Held(claims)[i] !! LockSystem.Tokens(c)
      modifies ls.repr, ls.byExpiry
      ensures Ready(claims) && ls.repr == old(ls.repr) && ls.gen == old(ls.gen) && Held(claims) == old(Held(claims))
      ensures ls.Locks() == LockSpec.Release(old(ls.Locks()), old(LockSystem.Tokens(c)))
    {
      ghost var released := LockSystem.Tokens(c);
      ls.Release(c);
      ClaimsStay(claims, released);
    }

    method Create(claims: Claims, now: int, details: LockDetails)
      requires Ready(claims)
      modifies ls, ls.repr, ls.byExpiry
      ensures Ready(claims) && old(ls.repr) <= ls.repr && fresh(ls.repr - old(ls.repr))
      ensures Abs(claims) == Step(old(Abs(claims)), DoCreate(now, details))
    {
      ghost var s := Abs(claims);
      var r := CreateKeeping(claims, now, details);
      CreateStep(s, now, details, ls.Locks(), r);
    }

    method CreateKeeping(claims: Claims, now: int, details: LockDetails) returns (r: Result<string>)
      requires Ready(claims)
      modifies ls, ls.repr, ls.byExpiry
      ensures Ready(claims) && old(ls.repr) <= ls.repr && fresh(ls.repr - old(ls.repr))
        && Held(claims) == old(Held(claims))
      ensures ls.gen == old(ls.gen) + if r.Ok? then 1 else 0
      ensures (ls.Locks(), r) == LockSpec.Create(old(ls.Locks()), now, details, FormatUint(old(ls.gen) + 1))
    {
      r := ls.Create(now, details);
      ClaimsStay(claims, {});
    }

    method Refresh(claims: Claims, now: int, token: string, duration: int)
      requires Ready(claims)
      modifies ls, ls.repr, ls.byExpiry
      ensures Ready(claims) && ls.repr == old(ls.repr)
      ensures Abs(claims) == Step(old(Abs(claims)), DoRefresh(now, token, duration))
    {
      var r := ls.Refresh(now, token, duration);
      ClaimsStay(claims, {});
    }

    method Unlock(claims: Claims, now: int, token: string)
      requires Ready(claims)
      modifies ls, ls.repr, ls.byExpiry
      ensures Ready(claims) && ls.repr == old(ls.repr)
      ensures Abs(claims) == Step(old(Abs(claims)), DoUnlock(now, token))
    {
      var err := ls.Unlock(now, token);
      ClaimsStay(claims, {});
    }

    method Perform(claims: Claims, op: Op) returns (claims': Claims)
      requires Ready(claims) && Enabled(Abs(claims), op)
      requires op.DoRelease? ==> forall i :: i in claims && i != op.id ==> Held(claims)[i] !! Held(claims)[op.id]
      modifies ls, ls.repr, ls.byExpiry
      ensures Ready(claims') && old(ls.repr) <= ls.repr && fresh(ls.repr - old(ls.repr))
      ensures Abs(claims') == Step(old(Abs(claims)), op)
    {
      claims' := claims;
      match op
      case DoConfirm(id, now, name0, name1, conds) => claims' := Confirm(claims, id, now, name0, name1, conds);
      case DoRelease(id) => claims' := Release(claims, id);
      case DoCreate(now, details) => Create(claims, now, details);
      case DoRefresh(now, token, duration) => Refresh(claims, now, token, duration);
      case DoUnlock(now, token) => Unlock(claims, now, token);
    }

    method PerformIn(claims: Claims, op: Op, ghost s: Sys) returns (claims': Claims)
      requires Ready(claims) && s == Abs(claims) && Inv(s) && Enabled(s, op)
      modifies ls, ls.repr, ls.byExpiry
      ensures Ready(claims') && old(ls.repr) <= ls.repr && fresh(ls.repr - old(ls.repr))
      ensures Abs(claims') == Step(s, op)
    {
      if op.DoRelease? {
        HeldApart(s, op.id);
      }
      claims' := Perform(claims, op);
    }
  }

  lemma ConfirmStep(s: Sys, id: nat, now: int, name0: string, name1: string, conds: seq<Condition>, t: Table,
                    r: Option<set<string>>)
    requires id !in s.outstanding && (t, r) == LockSpec.Confirm(s.table, now, name0, name1, conds)
    ensures Step(s, DoConfirm(id, now, name0, name1, conds)) ==
      Sys(t, s.gen, if r.Some? then s.outstanding[id := r.value] else s.outstanding)
  {
  }

  lemma CreateStep(s: Sys, now: int, details: LockDetails, t: Table, r: Result<string>)
    requires (t, r) == LockSpec.Create(s.table, now, details, FormatUint(s.gen + 1))
    ensures Step(s, DoCreate(now, details)) == Sys(t, s.gen + if r.Ok? then 1 else 0, s.outstanding)
  {
  }

  /** No token belongs to two callbacks. */
  lemma HeldApart(s: Sys, id: nat)
    requires Inv(s) && id in s.outstanding
    ensures forall i :: i in s.outstanding && i != id ==> s.outstanding[i] !! s.outstanding[id]
  {
  }

  /** Any run of the table can be performed on a new lock system, callbacks and all: every
      operation, every release among them, finds what it relies on, and the system ends in
      the state that the run says. */
  method Serve(seed: nat, ops: seq<Op>, ghost end: Sys) returns (service: Service, claims: Claims)
    requires Reaches(seed, ops, end)
    ensures service.Ready(claims) && service.Abs(claims) == end
  {
    service := new Service(seed);
    claims := map[];
    ghost var s := service.Abs(claims);
    for k := 0 to |ops|
      invariant service.Ready(claims) && s == service.Abs(claims)
      invariant fresh(service.ls) && fresh(service.ls.repr) && fresh(service.ls.byExpiry)
      invariant Inv(s) && Leads(s, ops[k..], end)
    {
      assert ops[k..][0] == ops[k] && ops[k..][1..] == ops[k + 1..];
      StepKeeps(s, ops[k]);
      claims := service.PerformIn(claims, ops[k], s);
      s := Step(s, ops[k]);
    }
  }
}

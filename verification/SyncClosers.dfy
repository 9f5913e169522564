/** A set of closers shared by references.  Each atomic operation on the counter is one
    step; threads have no names, so the state says how many are at each place of a call
    and which values they have loaded. */
module SyncClosers {
  import opened Wrappers

  const CLOSED: int := -0x8000_0000

  /** 32-bit addition. */
  function Wrap(n: int): int {
    if n > 0x7FFF_FFFF then n - 0x1_0000_0000 else n
  }

  /** `storing`: acquiring threads that saw a closed counter and have yet to reset it;
      `loading`: closing threads about to load it; `loaded`: counter values that closing
      threads go on from; `closing`: threads about to run the closers.  `acquired`, `released`
      and `runs` are history: successful acquires, references given back, and how often the
      closers were run. */
  datatype State = State(ref: int, storing: nat, loading: nat, loaded: multiset<int>, closing: nat,
                         acquired: nat, released: nat, runs: nat)

  datatype Event = AcquireAdd | StoreClosed | CloseCall | CloseLoad | CloseSwap(seen: int) | RunClosers

  /** Calls under way. */
  function Busy(s: State): nat {
    s.storing + s.loading + |s.loaded| + s.closing
  }

  /** References handed out and not given back. */
  function Outstanding(s: State): int {
    s.acquired - s.released
  }

  predicate IsOpen(s: State) {
    s.closing == 0 && s.runs == 0
  }

  const INITIAL := State(0, 0, 0, multiset{}, 0, 0, 0, 0)

  /** One step; a call needs one of the `threads` that is not in a call, and references and
      threads together are counted in 31 bits. */
  function Next(threads: nat, s: State, e: Event): Option<State> {
    match e
    case AcquireAdd =>
      if Busy(s) >= threads || Outstanding(s) + threads >= 0x8000_0000 then None
      else
        var ref := Wrap(s.ref + 1);
        if ref > 0 then Some(s.(ref := ref, acquired := s.acquired + 1))
        else Some(s.(ref := ref, storing := s.storing + 1))
    case StoreClosed =>
      if s.storing == 0 then None
      else Some(s.(ref := CLOSED, storing := s.storing - 1))
    case CloseCall =>
      if Busy(s) >= threads then None else Some(s.(loading := s.loading + 1))
    case CloseLoad =>
      if s.loading == 0 then None
      else if s.ref < 0 then Some(s.(loading := s.loading - 1))
      else Some(s.(loading := s.loading - 1, loaded := s.loaded + multiset{s.ref}))
    case CloseSwap(seen) =>
      if seen !in s.loaded then None
      else
        var loaded := s.loaded - multiset{seen};
        if s.ref != seen then Some(s.(loaded := loaded, loading := s.loading + 1))
        else if seen > 1 then Some(s.(ref := seen - 1, loaded := loaded, released := s.released + 1))
        else Some(s.(ref := CLOSED, loaded := loaded, closing := s.closing + 1,
                     released := s.released + if seen == 1 then 1 else 0))
    case RunClosers =>
      if s.closing == 0 then None
      else Some(s.(closing := s.closing - 1, runs := s.runs + 1))
  }

  function Run(threads: nat, es: seq<Event>): Option<State> {
    if es == [] then Some(INITIAL)
    else
      var s := Run(threads, es[..|es| - 1]);
      if s.None? then None else Next(threads, s.value, es[|es| - 1])
  }

  /** While open the counter is the number of outstanding references, and it is zero only
      before the first; once closed it stays so far below zero that the acquires under way
      cannot bring it back, and the closers run once, with no reference outstanding. */
  predicate Inv(threads: nat, s: State) {
    && Busy(s) <= threads
    && (forall r :: r in s.loaded ==> r >= 0)
    && (IsOpen(s) ==> s.ref == Outstanding(s) && s.storing == 0 && (s.ref == 0 <==> s.acquired == 0) && s.ref >= 0)
    && (!IsOpen(s) ==> s.closing + s.runs == 1 && CLOSED <= s.ref <= CLOSED + s.storing && Outstanding(s) == 0)
  }

  lemma StepKeeps(threads: nat, s: State, e: Event)
    requires threads < 0x8000_0000 && Inv(threads, s) && Next(threads, s, e).Some?
    ensures Inv(threads, Next(threads, s, e).value)
    ensures !IsOpen(s) ==> !IsOpen(Next(threads, s, e).value) && Next(threads, s, e).value.acquired == s.acquired
  {
    match e
    case CloseSwap(seen) => SwapKeeps(threads, s, seen);
    case _ =>
  }

  lemma SwapKeeps(threads: nat, s: State, seen: int)
    requires threads < 0x8000_0000 && Inv(threads, s) && seen in s.loaded
    ensures Next(threads, s, CloseSwap(seen)).Some? && Inv(threads, Next(threads, s, CloseSwap(seen)).value)
    ensures !IsOpen(s) ==> !IsOpen(Next(threads, s, CloseSwap(seen)).value)
    ensures Next(threads, s, CloseSwap(seen)).value.acquired == s.acquired
  {
    assert s.loaded == (s.loaded - multiset{seen}) + multiset{seen};
  }

  lemma {:induction false} RunKeeps(threads: nat, es: seq<Event>)
    requires threads < 0x8000_0000 && Run(threads, es).Some?
    ensures Inv(threads, Run(threads, es).value)
  {
    if es != [] {
      RunKeeps(threads, es[..|es| - 1]);
      StepKeeps(threads, Run(threads, es[..|es| - 1]).value, es[|es| - 1]);
    }
  }

  /** The closers are run at most once, and not before every reference was given back. */
  lemma ClosersRunOnce(threads: nat, es: seq<Event>)
    requires threads < 0x8000_0000 && Run(threads, es).Some?
    ensures var s := Run(threads, es).value;
      && s.runs <= 1
      && (s.runs == 1 || s.closing > 0 ==> s.acquired == s.released && s.closing + s.runs == 1)
      && (s.acquired != s.released ==> s.ref == s.acquired - s.released)
  {
    RunKeeps(threads, es);
  }

  /** When the last reference is given back the closers run: a call of Close that swaps the
      counter at one, or before any acquire, ends the open phase, and no other step does. */
  lemma ClosesAtTheLast(threads: nat, es: seq<Event>, e: Event)
    requires threads < 0x8000_0000 && Run(threads, es).Some? && Next(threads, Run(threads, es).value, e).Some?
    requires IsOpen(Run(threads, es).value)
    ensures var s := Run(threads, es).value; var s' := Next(threads, s, e).value;
      !IsOpen(s') <==> e.CloseSwap? && e.seen == s.ref && Outstanding(s) <= 1
  {
    RunKeeps(threads, es);
  }

  /** After that no acquire succeeds, whatever the threads do. */
  lemma {:induction false} NoAcquireAfterClose(threads: nat, es: seq<Event>, more: seq<Event>)
    requires threads < 0x8000_0000 && Run(threads, es).Some? && !IsOpen(Run(threads, es).value)
    requires Run(threads, es + more).Some?
    ensures !IsOpen(Run(threads, es + more).value)
    ensures Run(threads, es + more).value.acquired == Run(threads, es).value.acquired
  {
    if more == [] {
      assert es + more == es;
    } else {
      var last := |more| - 1;
      assert (es + more)[..|es + more| - 1] == es + more[..last];
      NoAcquireAfterClose(threads, es, more[..last]);
      RunKeeps(threads, es + more[..last]);
      StepKeeps(threads, Run(threads, es + more[..last]).value, more[last]);
    }
  }

  /*** every call has its effect ***/

  function Count(es: seq<Event>, e: Event): nat {
    if es == [] then 0 else Count(es[..|es| - 1], e) + if es[|es| - 1] == e then 1 else 0
  }

  /** While open every acquire so far has handed out a reference, and every close has given
      one back or is still under way; what is closed was closed by a call. */
  predicate Accounted(s: State, acquires: nat, closes: nat) {
    if IsOpen(s) then s.acquired == acquires && s.released + s.loading + |s.loaded| == closes
    else closes > 0
  }

  lemma SwapAccounted(threads: nat, s: State, seen: int, acquires: nat, closes: nat)
    requires Accounted(s, acquires, closes) && seen in s.loaded
    ensures Accounted(Next(threads, s, CloseSwap(seen)).value, acquires, closes)
  {
    assert |s.loaded - multiset{seen}| == |s.loaded| - 1;
  }

  lemma {:induction false} CallsAccounted(threads: nat, es: seq<Event>)
    requires threads < 0x8000_0000 && Run(threads, es).Some?
    ensures Accounted(Run(threads, es).value, Count(es, AcquireAdd), Count(es, CloseCall))
  {
    if es != [] {
      var before, e := es[..|es| - 1], es[|es| - 1];
      CallsAccounted(threads, before);
      RunKeeps(threads, before);
      var s := Run(threads, before).value;
      match e
      case CloseSwap(seen) => SwapAccounted(threads, s, seen, Count(before, AcquireAdd), Count(before, CloseCall));
      case _ =>
    }
  }

  /** A thread that is free can acquire, and it gets a reference exactly while open. */
  lemma {:induction false} AcquireIffOpen(threads: nat, es: seq<Event>)
    requires threads < 0x8000_0000 && Run(threads, es).Some?
    requires var s := Run(threads, es).value; Busy(s) < threads && Outstanding(s) + threads < 0x8000_0000
    ensures var s, s' := Run(threads, es).value, Run(threads, es + [AcquireAdd]);
      s'.Some? && s'.value.acquired == s.acquired + if IsOpen(s) then 1 else 0
  {
    RunKeeps(threads, es);
    assert (es + [AcquireAdd])[..|es + [AcquireAdd]| - 1] == es;
  }

  /** Once all calls have returned, the closers have run exactly if close was called and
      every reference is given back. */
  lemma {:induction false} ClosersRunIff(threads: nat, es: seq<Event>)
    requires threads < 0x8000_0000 && Run(threads, es).Some? && Busy(Run(threads, es).value) == 0
    ensures var s := Run(threads, es).value;
      s.runs == 1 <==> Count(es, CloseCall) > 0 && s.acquired == s.released
  {
    RunKeeps(threads, es);
    CallsAccounted(threads, es);
  }
}

/** When the downloader can move on: when the chunk channel has room for a chunk, so that
    the mutex is never held to wait for it, and when a read that waits is answered. */
module DownloadProgress {
  import opened Wrappers
  import opened ChunkSizes
  import opened Downloader
  import opened DownloadRuns

  /*** room in the channel ***/

  /** Nobody has to wait for room: neither to issue a chunk nor to give one back. */
  ghost predicate Roomy(g: Config, s: State) {
    && (s.mu.Locked? ==> InChannel(s) < g.workers)
    && (forall w :: 0 <= w < |s.workers| && s.workers[w].Requeueing? ==> InChannel(s) < g.workers)
  }

  lemma {:induction false} Pigeons(q: seq<nat>, n: nat)
    requires forall i, j :: 0 <= i < j < |q| ==> q[i] != q[j]
    requires forall i :: 0 <= i < |q| ==> q[i] < n
    ensures |q| <= n
  {
    assert |q| > 0 ==> 0 <= q[0] < n;
    if k :| 0 <= k < |q| && q[k] == n - 1 {
      Pigeons(q[..k] + q[k + 1..], n - 1);
    } else if n > 0 {
      Pigeons(q, n - 1);
    }
  }

  /*** room because every waiting chunk needs a buffer ***/

  /** No chunk in the channel, or on its way back to it, was already fetched to its last
      byte. */
  ghost predicate NoneEmpty(s: State) {
    && (forall k :: 0 <= k < |s.queue| ==> s.queue[k].size > 0)
    && (forall w :: 0 <= w < |s.workers| && s.workers[w].Requeueing? ==> s.workers[w].c.size > 0)
  }

  function QueuedBuffers(s: State): (r: seq<nat>)
    ensures |r| == |s.queue| && forall k :: 0 <= k < |r| ==> r[k] == s.queue[k].buf
  {
    seq(|s.queue|, k requires 0 <= k < |s.queue| => s.queue[k].buf)
  }

  /** Waiting chunks with something left have buffers of their own. */
  lemma BuffersGiveRoom(g: Config, s: State)
    requires Inv(g, s) && NoneEmpty(s)
    ensures Roomy(g, s)
  {
    var q := QueuedBuffers(s);
    forall k | 0 <= k < |q| ensures Alive(s, s.queue[k].id) && q[k] == Owner(s, s.queue[k].id) < |s.bufs| {
      assert ChunkOk(g, s, s.queue[k]);
    }
    forall i, j | 0 <= i < j < |q| ensures q[i] != q[j] {
      OwnersDiffer(s, s.queue[i].id, s.queue[j].id);
    }
    Pigeons(q, |s.bufs|);
    forall w | 0 <= w < |s.workers| && s.workers[w].Requeueing? ensures |s.queue| < |s.bufs| {
      RequeueFits(g, s, w, q);
    }
  }

  lemma RequeueFits(g: Config, s: State, w: nat, q: seq<nat>)
    requires Inv(g, s) && NoneEmpty(s) && w < |s.workers| && s.workers[w].Requeueing? && q == QueuedBuffers(s)
    requires forall k :: 0 <= k < |q| ==> Alive(s, s.queue[k].id) && q[k] == Owner(s, s.queue[k].id) < |s.bufs|
    requires forall i, j :: 0 <= i < j < |q| ==> q[i] != q[j]
    ensures |s.queue| < |s.bufs|
  {
    var c := s.workers[w].c;
    assert ChunkOk(g, s, Left(s.workers[w])) && HeldBy(s, w, c.id);
    forall k | 0 <= k < |q| ensures q[k] != c.buf {
      OwnersDiffer(s, s.queue[k].id, c.id);
    }
    Pigeons(q + [c.buf], |s.bufs|);
  }

  /** No body breaks after the last byte of its chunk: what is fetched to its end is never
      asked for again. */
  ghost predicate CleanEnds(g: Config, es: seq<Event>)
    requires g.part >= 1
  {
    es == [] || (CleanEnds(g, es[..|es| - 1]) && CleanEvent(Run(g, es[..|es| - 1]), es[|es| - 1]))
  }

  predicate CleanEvent(s: Option<State>, e: Event) {
    e.BodyBreaks? && s.Some? && e.w < |s.value.workers| && s.value.workers[e.w].Copying? ==>
      s.value.workers[e.w].n < s.value.workers[e.w].c.size
  }

  /** Every chunk somebody has or waits for has something left. */
  ghost predicate SomeLeft(s: State) {
    && (forall k :: 0 <= k < |s.queue| ==> s.queue[k].size > 0)
    && (forall w :: 0 <= w < |s.workers| && Busy(s.workers[w]) && !s.workers[w].Copying? ==> s.workers[w].c.size > 0)
  }

  lemma CleanSend(g: Config, s: State, newConcurrency: bool, refused: bool, sender: Option<nat>)
    requires Sane(g) && Core(g, s) && SomeLeft(s) && s.mu.Unlocked?
    ensures SomeLeft(SendChunk(g, s, newConcurrency, refused, sender))
  {
    SendForm(g, s, newConcurrency, refused, sender);
    SizeFits(g.length, g.part, s.nextChunk);
  }

  lemma CleanLaunch(g: Config, s: State, e: Event)
    requires Inv(g, s) && SomeLeft(s) && e.Launch? && Next(g, s, e).Some?
    ensures SomeLeft(Next(g, s, e).value)
  {
    var c := s.workers[e.w].c;
    var l := SetWorker(s, e.w, Launching(c));
    HoldsOn(g, s, e.w, Launching(c), s.concurrency);
    assert l == l.(concurrency := s.concurrency);
    CleanSend(g, l, true, e.refused, Some(e.w));
  }

  lemma CleanWorker(g: Config, s: State, e: Event)
    requires e.Receive? || e.RequestOk? || e.RequestFails? || e.BodyEnds? || e.BodyBreaks? || e.Requeue?
    requires Inv(g, s) && SomeLeft(s) && CleanEvent(Some(s), e) && WorkerStep(g, s, e).Some?
    ensures SomeLeft(WorkerStep(g, s, e).value)
  {
    assert Busy(s.workers[e.w]) ==> ChunkOk(g, s, Left(s.workers[e.w]));
  }

  lemma CleanCopy(g: Config, s: State, e: Event)
    requires Inv(g, s) && SomeLeft(s) && e.Copy? && WorkerStep(g, s, e).Some?
    ensures SomeLeft(WorkerStep(g, s, e).value)
  {
    CopyFits(g, s, e.w, e.k);
  }

  lemma CleanStep(g: Config, s: State, e: Event)
    requires Inv(g, s) && SomeLeft(s) && CleanEvent(Some(s), e) && Next(g, s, e).Some?
    ensures SomeLeft(Next(g, s, e).value)
  {
    match e
    case Launch(_, _) => CleanLaunch(g, s, e);
    case Copy(_, _) => CleanCopy(g, s, e);
    case Send(refused) =>
      PhaseCore(g, s, s.(phase := Delivering));
      CleanSend(g, s.(phase := Delivering), false, refused, None);
    case Deliver =>
    case Read(_) =>
    case EndOfBuffer =>
    case Deposit =>
    case Close =>
    case Pop =>
    case _ => CleanWorker(g, s, e);
  }

  lemma {:induction false} CleanRuns(g: Config, es: seq<Event>)
    requires Sane(g) && Run(g, es).Some? && CleanEnds(g, es)
    ensures SomeLeft(Run(g, es).value)
  {
    if es == [] {
      var s0 := State(0, g.start, g.workers, map[], [], [], Unlocked, [], Popping, 0, 0, []);
      assert Core(g, s0);
      CleanSend(g, s0, true, false, None);
    } else {
      var s := Run(g, es[..|es| - 1]).value;
      CleanRuns(g, es[..|es| - 1]);
      RunKeeps(g, es[..|es| - 1]);
      CleanStep(g, s, es[|es| - 1]);
    }
  }

  /*** room because there are few chunks ***/

  /** The first chunk is waiting only at first, and never given back. */
  ghost predicate FirstGone(s: State) {
    && (s.phase.Depositing? || s.phase.Sending? || s.phase.Delivering? || s.phase.Closing? ==> s.mrPos >= 1)
    && (forall k :: 0 <= k < |s.queue| && s.queue[k].id == 0 ==> s.nextChunk == 1 && s.queue[k].size > 0)
    && (forall w :: 0 <= w < |s.workers| && s.workers[w].Requeueing? ==> s.workers[w].c.id != 0)
  }

  /** While the first chunk waits nothing else is issued. */
  lemma FirstWaitsAlone(g: Config, s: State, k: nat)
    requires Inv(g, s) && FirstGone(s) && k < |s.queue| && s.queue[k].id == 0
    ensures !s.phase.Sending? && forall w :: 0 <= w < |s.workers| ==> !Busy(s.workers[w])
  {
    assert ChunkOk(g, s, s.queue[k]);
    forall w: nat | w < |s.workers| ensures !Busy(s.workers[w]) {
      assert !HeldBy(s, w, s.queue[k].id);
      assert Busy(s.workers[w]) ==> ChunkOk(g, s, Left(s.workers[w]));
    }
  }

  lemma FirstLaunch(g: Config, s: State, e: Event)
    requires Inv(g, s) && FirstGone(s) && e.Launch? && Next(g, s, e).Some?
    ensures FirstGone(Next(g, s, e).value)
  {
    var c := s.workers[e.w].c;
    var l := SetWorker(s, e.w, Launching(c));
    HoldsOn(g, s, e.w, Launching(c), s.concurrency);
    assert l == l.(concurrency := s.concurrency);
    SendForm(g, l, true, e.refused, Some(e.w));
    forall k | 0 <= k < |s.queue| ensures s.queue[k].id != 0 {
      if s.queue[k].id == 0 {
        FirstWaitsAlone(g, s, k);
      }
    }
    assert HeldBy(s, e.w, c.id) && ChunkOk(g, s, c);
  }

  lemma FirstSend(g: Config, s: State, refused: bool)
    requires Inv(g, s) && FirstGone(s) && Next(g, s, Send(refused)).Some?
    ensures FirstGone(Next(g, s, Send(refused)).value)
  {
    PhaseCore(g, s, s.(phase := Delivering));
    SendForm(g, s.(phase := Delivering), false, refused, None);
    forall k | 0 <= k < |s.queue| ensures s.queue[k].id != 0 {
      if s.queue[k].id == 0 {
        FirstWaitsAlone(g, s, k);
      }
    }
  }

  lemma FirstWorker(g: Config, s: State, e: Event)
    requires e.Receive? || e.RequestOk? || e.RequestFails? || e.Copy? || e.BodyEnds? || e.BodyBreaks?
    requires Inv(g, s) && FirstGone(s) && WorkerStep(g, s, e).Some?
    ensures FirstGone(WorkerStep(g, s, e).value)
  {
  }

  lemma FirstRequeue(g: Config, s: State, w: nat)
    requires Inv(g, s) && FirstGone(s) && WorkerStep(g, s, Requeue(w)).Some?
    ensures FirstGone(WorkerStep(g, s, Requeue(w)).value)
  {
    assert Inserted(s.queue, InChannel(s), s.workers[w].c, WorkerStep(g, s, Requeue(w)).value.queue);
  }

  lemma FirstReader(g: Config, s: State, e: Event)
    requires e.Read? || e.EndOfBuffer? || e.Deposit? || e.Close? || e.Pop?
    requires Inv(g, s) && FirstGone(s) && ReaderStep(g, s, e).Some?
    ensures FirstGone(ReaderStep(g, s, e).value)
  {
  }

  lemma FirstStep(g: Config, s: State, e: Event)
    requires Inv(g, s) && FirstGone(s) && Next(g, s, e).Some?
    ensures FirstGone(Next(g, s, e).value)
  {
    match e
    case Launch(_, _) => FirstLaunch(g, s, e);
    case Send(refused) => FirstSend(g, s, refused);
    case Requeue(w) => FirstRequeue(g, s, w);
    case Deliver =>
    case Read(_) => FirstReader(g, s, e);
    case EndOfBuffer => FirstReader(g, s, e);
    case Deposit => FirstReader(g, s, e);
    case Close => FirstReader(g, s, e);
    case Pop => FirstReader(g, s, e);
    case _ => FirstWorker(g, s, e);
  }

  lemma {:induction false} FirstRuns(g: Config, es: seq<Event>)
    requires Sane(g) && Run(g, es).Some?
    ensures FirstGone(Run(g, es).value)
  {
    if es == [] {
      SizeFits(g.length, g.part, 0);
    } else {
      FirstRuns(g, es[..|es| - 1]);
      RunKeeps(g, es[..|es| - 1]);
      FirstStep(g, Run(g, es[..|es| - 1]).value, es[|es| - 1]);
    }
  }

  function QueuedIds(s: State): (r: seq<nat>)
    ensures |r| == |s.queue| && forall k :: 0 <= k < |r| ==> r[k] == s.queue[k].id
  {
    seq(|s.queue|, k requires 0 <= k < |s.queue| => s.queue[k].id)
  }

  /** Waiting chunks are different, and the first is not one of several. */
  lemma FewGiveRoom(g: Config, s: State)
    requires Inv(g, s) && FirstGone(s) && Parts(g) <= g.workers + 1
    ensures Roomy(g, s)
  {
    var q := QueuedIds(s);
    forall k | 0 <= k < |q| ensures q[k] < s.nextChunk {
      assert ChunkOk(g, s, s.queue[k]);
    }
    if s.nextChunk <= 1 {
      Pigeons(q, s.nextChunk);
    } else {
      Pigeons(q + [0], s.nextChunk);
    }
    forall w | 0 <= w < |s.workers| && s.workers[w].Requeueing? ensures InChannel(s) < g.workers {
      var id := s.workers[w].c.id;
      assert ChunkOk(g, s, Left(s.workers[w])) && HeldBy(s, w, id);
      Pigeons(q + [0, id], s.nextChunk);
    }
  }

  /*** one worker ***/

  /** With a single worker no chunk is ever given back. */
  ghost predicate Single(s: State) {
    && |s.workers| == 1 && s.concurrency <= 0 && !s.workers[0].Requeueing? && !s.workers[0].Gone?
    && (forall k :: 0 <= k < |s.queue| ==> s.queue[k].size > 0 && (s.queue[k].newConcurrency ==> s.queue[k].id == 0))
    && (Busy(s.workers[0]) ==> (s.workers[0].c.newConcurrency ==> s.workers[0].c.id == 0))
  }

  lemma SingleSend(g: Config, s: State, newConcurrency: bool, refused: bool, sender: Option<nat>)
    requires Sane(g) && Core(g, s) && Single(s) && s.mu.Unlocked?
    ensures Single(SendChunk(g, s, newConcurrency, refused, sender))
  {
    SendForm(g, s, newConcurrency, refused, sender);
    SizeFits(g.length, g.part, s.nextChunk);
  }

  lemma SingleReader(g: Config, s: State, e: Event)
    requires Inv(g, s) && Single(s) && (e.Read? || e.EndOfBuffer? || e.Deposit? || e.Send? || e.Close? || e.Pop?)
    requires ReaderStep(g, s, e).Some?
    ensures Single(ReaderStep(g, s, e).value)
  {
    if e.Send? {
      PhaseCore(g, s, s.(phase := Delivering));
      SingleSend(g, s.(phase := Delivering), false, e.refused, None);
    }
  }

  lemma SingleLaunch(g: Config, s: State, e: Event)
    requires Inv(g, s) && Single(s) && e.Launch? && Next(g, s, e).Some?
    ensures Single(Next(g, s, e).value)
  {
    var l := SetWorker(s, e.w, Launching(s.workers[e.w].c));
    HoldsOn(g, s, e.w, Launching(s.workers[e.w].c), s.concurrency);
    assert l == l.(concurrency := s.concurrency);
    SingleSend(g, l, true, e.refused, Some(e.w));
  }

  lemma SingleWorker(g: Config, s: State, e: Event)
    requires Inv(g, s) && Single(s)
      && (e.Receive? || e.RequestOk? || e.RequestFails? || e.BodyEnds? || e.BodyBreaks? || e.Requeue?)
    requires WorkerStep(g, s, e).Some?
    ensures Single(WorkerStep(g, s, e).value)
  {
  }

  lemma SingleCopy(g: Config, s: State, e: Event)
    requires Inv(g, s) && Single(s) && e.Copy? && WorkerStep(g, s, e).Some?
    ensures Single(WorkerStep(g, s, e).value)
  {
  }

  lemma SingleStep(g: Config, s: State, e: Event)
    requires Inv(g, s) && Single(s) && Next(g, s, e).Some?
    ensures Single(Next(g, s, e).value)
  {
    if e.Launch? {
      SingleLaunch(g, s, e);
    } else if e.Read? || e.EndOfBuffer? || e.Deposit? || e.Send? || e.Close? || e.Pop? {
      SingleReader(g, s, e);
    } else if e.Copy? {
      SingleCopy(g, s, e);
    } else if !e.Deliver? {
      SingleWorker(g, s, e);
    }
  }

  lemma {:induction false} SingleRuns(g: Config, es: seq<Event>)
    requires Sane(g) && g.workers == 1 && Run(g, es).Some?
    ensures Single(Run(g, es).value)
  {
    if es == [] {
      AtLeastTwo(g.length, g.part);
      SizeFits(g.length, g.part, 0);
    } else {
      SingleRuns(g, es[..|es| - 1]);
      RunKeeps(g, es[..|es| - 1]);
      SingleStep(g, Run(g, es[..|es| - 1]).value, es[|es| - 1]);
    }
  }

  /*** the channel always has room ***/

  /** Nothing is asked for twice to its end, or there are not enough workers or chunks for
      that to matter. */
  ghost predicate RoomFor(g: Config, es: seq<Event>)
    requires g.part >= 1
  {
    CleanEnds(g, es) || g.workers == 1 || Parts(g) <= g.workers + 1
  }

  lemma AlwaysRoomy(g: Config, es: seq<Event>, s: State)
    requires Sane(g) && Run(g, es) == Some(s) && RoomFor(g, es)
    ensures Inv(g, s) && Roomy(g, s)
  {
    RunKeeps(g, es);
    if Parts(g) <= g.workers + 1 {
      FirstRuns(g, es);
      FewGiveRoom(g, s);
    } else {
      NoneEmptyRuns(g, es, s);
      BuffersGiveRoom(g, s);
    }
  }

  lemma NoneEmptyRuns(g: Config, es: seq<Event>, s: State)
    requires Sane(g) && Run(g, es) == Some(s) && (CleanEnds(g, es) || g.workers == 1)
    ensures NoneEmpty(s)
  {
    if g.workers == 1 {
      SingleRuns(g, es);
      SingleNonEmpty(s);
    } else {
      CleanRuns(g, es);
      LeftNonEmpty(s);
    }
  }

  lemma SingleNonEmpty(s: State)
    requires Single(s)
    ensures NoneEmpty(s)
  {
  }

  lemma LeftNonEmpty(s: State)
    requires SomeLeft(s)
    ensures NoneEmpty(s)
  {
  }

  /** Under that condition, neither a chunk that is issued nor one that is given back waits
      for room. */
  lemma ChannelNeverFull(g: Config, es: seq<Event>, s: State, w: nat)
    requires Sane(g) && Run(g, es) == Some(s) && RoomFor(g, es)
    ensures s.mu.Locked? ==> Next(g, s, Deliver).Some?
    ensures w < |s.workers| && s.workers[w].Requeueing? ==> Next(g, s, Requeue(w)).Some?
  {
    AlwaysRoomy(g, es, s);
    Goes(g, s, w);
  }

  lemma Goes(g: Config, s: State, w: nat)
    requires Inv(g, s) && Roomy(g, s)
    ensures s.mu.Locked? ==> Next(g, s, Deliver).Some?
    ensures w < |s.workers| && s.workers[w].Requeueing? ==> Next(g, s, Requeue(w)).Some?
  {
  }

  /*** waiting reads ***/

  /** The reader waits for bytes of its buffer. */
  predicate Waits(s: State) {
    s.phase.Reading? && s.cur < |s.bufs| && s.bufs[s.cur].read == |s.bufs[s.cur].data| < s.bufs[s.cur].limit
  }

  predicate AllGone(s: State) {
    forall w :: 0 <= w < |s.workers| ==> s.workers[w].Gone?
  }

  /** Nothing can move any more. */
  ghost predicate Dead(g: Config, s: State)
    requires g.part >= 1
  {
    forall e :: Next(g, s, e).None?
  }

  lemma ReaderMoves(g: Config, s: State)
    requires Inv(g, s) && s.mu.Unlocked? && !s.phase.Finished? && !Waits(s)
    ensures !Dead(g, s)
  {
    var e :=
      if s.phase.Reading? then (if s.bufs[s.cur].read >= s.bufs[s.cur].limit then EndOfBuffer else Read(1))
      else if s.phase.Depositing? then Deposit
      else if s.phase.Sending? then Send(false)
      else if s.phase.Closing? then Close
      else Pop;
    if s.phase.Reading? {
      assert Alive(s, s.mrPos) && ContentOk(g, s, s.mrPos);
    }
    assert Next(g, s, e).Some?;
  }

  lemma WorkerMoves(g: Config, s: State, w: nat)
    requires Inv(g, s) && Roomy(g, s) && s.mu.Unlocked? && w < |s.workers| && Busy(s.workers[w])
    ensures !Dead(g, s)
  {
    var e := match s.workers[w]
      case Trying(_) => RequestOk(w)
      case Opened(_) => Launch(w, false)
      case Copying(_, _) => BodyBreaks(w)
      case _ => Requeue(w);
    assert Next(g, s, e).Some?;
  }

  lemma AnyWorkerMoves(g: Config, s: State, w: nat)
    requires Inv(g, s) && Roomy(g, s) && s.mu.Unlocked? && Waits(s) && w < |s.workers| && !s.workers[w].Gone?
    ensures !Dead(g, s)
  {
    if Busy(s.workers[w]) {
      WorkerMoves(g, s, w);
    } else if s.queue != [] {
      assert Next(g, s, Receive(w)).Some?;
    } else {
      assert Alive(s, s.mrPos) && ContentOk(g, s, s.mrPos) && !Complete(s, s.mrPos);
      assert Held(s, s.mrPos);
      var v: nat :| HeldBy(s, v, s.mrPos);
      WorkerMoves(g, s, v);
    }
  }

  lemma WaitsForever(g: Config, s: State)
    requires Inv(g, s) && Waits(s) && AllGone(s)
    ensures Dead(g, s)
  {
    forall e ensures Next(g, s, e).None? {
    }
  }

  lemma Resting(g: Config, s: State)
    requires Inv(g, s) && Roomy(g, s) && !s.phase.Finished?
    ensures Dead(g, s) <==> Waits(s) && AllGone(s)
  {
    if s.mu.Locked? {
      assert Next(g, s, Deliver).Some?;
    } else if !Waits(s) {
      ReaderMoves(g, s);
    } else if !AllGone(s) {
      var w :| 0 <= w < |s.workers| && !s.workers[w].Gone?;
      AnyWorkerMoves(g, s, w);
    } else {
      WaitsForever(g, s);
    }
  }

  /** Under the same condition, a download that has not ended comes to rest exactly when the
      reader waits and every worker has quit. */
  lemma RestsOnlyWithoutWorkers(g: Config, es: seq<Event>, s: State)
    requires Sane(g) && Run(g, es) == Some(s) && RoomFor(g, es) && !s.phase.Finished?
    ensures Dead(g, s) <==> Waits(s) && AllGone(s)
  {
    AlwaysRoomy(g, es, s);
    Resting(g, s);
  }
}

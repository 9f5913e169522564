/** What the downloader can run into: exactly which downloads can be left without workers,
    and exactly which can have to wait, with the mutex held, for room in the channel. */
module DownloadLimits {
  import opened Wrappers
  import opened ChunkSizes
  import opened Downloader
  import opened DownloadRuns
  import opened DownloadProgress

  ghost predicate Reachable(g: Config, s: State)
    requires g.part >= 1
  {
    exists es :: Run(g, es) == Some(s)
  }

  lemma ReachableInv(g: Config, s: State)
    requires Sane(g) && Reachable(g, s)
    ensures Inv(g, s)
  {
    var es :| Run(g, es) == Some(s);
    RunKeeps(g, es);
  }

  lemma Step(g: Config, s: State, e: Event) returns (s': State)
    requires Sane(g) && Reachable(g, s) && Next(g, s, e).Some?
    ensures Reachable(g, s') && Next(g, s, e) == Some(s')
  {
    s' := Next(g, s, e).value;
    var es :| Run(g, es) == Some(s);
    assert (es + [e])[..|es + [e]| - 1] == es;
    assert Run(g, es + [e]) == Some(s');
  }

  /*** steps of one worker ***/

  /** An idle worker takes the first chunk in the channel. */
  lemma Takes(g: Config, s: State, w: nat) returns (s': State)
    requires Sane(g) && Reachable(g, s) && w < |s.workers| && s.workers[w].Idle? && s.mu.Unlocked? && s.queue != []
    ensures Reachable(g, s') && s' == s.(workers := s.workers[w := Trying(s.queue[0])], queue := s.queue[1..])
  {
    s' := Step(g, s, Receive(w));
  }

  lemma Answered(g: Config, s: State, w: nat) returns (s': State)
    requires Sane(g) && Reachable(g, s) && w < |s.workers| && s.workers[w].Trying?
    ensures Reachable(g, s') && s' == s.(workers := s.workers[w := Opened(s.workers[w].c)])
  {
    s' := Step(g, s, RequestOk(w));
  }

  /** With no launches left a worker goes on to its body. */
  lemma LaunchesNone(g: Config, s: State, w: nat) returns (s': State)
    requires Sane(g) && Reachable(g, s) && w < |s.workers| && s.workers[w].Opened? && s.mu.Unlocked?
      && s.concurrency <= 0
    ensures Reachable(g, s') && s' == s.(workers := s.workers[w := Copying(s.workers[w].c, 0)])
  {
    s' := Step(g, s, Launch(w, false));
    assert s'.workers == s.workers[w := Copying(s.workers[w].c, 0)];
  }

  /** A chunk that launched a worker is refused: the worker means to quit. */
  lemma Denied(g: Config, s: State, w: nat) returns (s': State)
    requires Sane(g) && Reachable(g, s) && w < |s.workers| && s.workers[w].Trying? && s.mu.Unlocked?
    requires s.workers[w].c.id != 0 && s.workers[w].c.newConcurrency
    ensures Reachable(g, s')
    ensures s' == s.(workers := s.workers[w := Requeueing(s.workers[w].c)], concurrency := s'.concurrency)
    ensures s'.concurrency < 0
  {
    s' := Step(g, s, RequestFails(w));
  }

  lemma Returned(g: Config, s: State, w: nat) returns (s': State)
    requires Sane(g) && Reachable(g, s) && w < |s.workers| && s.workers[w].Requeueing? && s.mu.Unlocked?
      && |s.queue| < g.workers
    ensures Reachable(g, s') && s' == s.(workers := s.workers[w := Gone], queue := s.queue + [s.workers[w].c])
  {
    s' := Step(g, s, Requeue(w));
    assert s.queue[..|s.queue|] + [s.workers[w].c] + s.queue[|s.queue|..] == s.queue + [s.workers[w].c];
  }

  /** A refused worker gives its chunk back and quits. */
  lemma Quits(g: Config, s: State, w: nat) returns (s': State)
    requires Sane(g) && Reachable(g, s) && w < |s.workers| && s.workers[w].Trying? && s.mu.Unlocked?
      && |s.queue| < g.workers
    requires s.workers[w].c.id != 0 && s.workers[w].c.newConcurrency
    ensures Reachable(g, s') && s'.concurrency < 0
    ensures s' == s.(workers := s.workers[w := Gone], queue := s.queue + [s.workers[w].c],
      concurrency := s'.concurrency)
  {
    s' := Denied(g, s, w);
    s' := Returned(g, s', w);
    assert s'.workers == s.workers[w := Gone];
  }

  /** The buffer b is full and nobody read from it. */
  predicate FullBuffer(b: Buffer) {
    !b.closed && b.read == 0 && |b.data| == b.limit && b.limit > 0
  }

  /** A worker copies its whole chunk. */
  lemma CopiesAll(g: Config, s: State, w: nat) returns (s': State)
    requires Sane(g) && Reachable(g, s) && w < |s.workers| && s.workers[w].Copying? && s.workers[w].n == 0
    requires var c := s.workers[w].c;
      && c.buf < |s.bufs| && 0 < c.size && 0 <= c.start && c.start + c.size <= |g.remote|
      && s.bufs[c.buf] == Buffer(c.size, 0, [], false)
    ensures Reachable(g, s')
    ensures var c := s.workers[w].c;
      && |s'.bufs| == |s.bufs| && FullBuffer(s'.bufs[c.buf])
      && s' == s.(workers := s.workers[w := Copying(c, c.size)], bufs := s.bufs[c.buf := s'.bufs[c.buf]])
  {
    s' := Step(g, s, Copy(w, s.workers[w].c.size));
  }

  lemma BodyDone(g: Config, s: State, w: nat) returns (s': State)
    requires Sane(g) && Reachable(g, s) && w < |s.workers| && s.workers[w].Copying?
      && s.workers[w].n == s.workers[w].c.size
    ensures Reachable(g, s') && s' == s.(workers := s.workers[w := Idle])
  {
    s' := Step(g, s, BodyEnds(w));
  }

  lemma BodyFails(g: Config, s: State, w: nat) returns (s': State)
    requires Sane(g) && Reachable(g, s) && w < |s.workers| && s.workers[w].Copying?
    ensures Reachable(g, s') && s' == s.(workers := s.workers[w := Trying(Advance(s.workers[w].c, s.workers[w].n))])
  {
    s' := Step(g, s, BodyBreaks(w));
  }

  /*** all workers launched by the first ***/

  function ChunkAt(g: Config, i: nat): Chunk
    requires g.part >= 1
  {
    Chunk(i, At(g, i), ChunkSize(g.length, g.part, i), i, true)
  }

  function Fresh(g: Config, j: nat): (r: seq<Buffer>)
    requires g.part >= 1
    ensures |r| == j && forall i :: 0 <= i < j ==> r[i] == Buffer(ChunkSize(g.length, g.part, i), 0, [], false)
  {
    seq(j, i requires 0 <= i < j => Buffer(ChunkSize(g.length, g.part, i), 0, [], false))
  }

  /** Chunks 1 to j - 1. */
  function Rest(g: Config, j: nat): (r: seq<Chunk>)
    requires g.part >= 1 && j >= 1
    ensures |r| == j - 1 && forall i :: 0 <= i < j - 1 ==> r[i] == ChunkAt(g, i + 1)
  {
    seq(j - 1, i requires 0 <= i < j - 1 => ChunkAt(g, i + 1))
  }

  function Own(j: nat): (r: map<int, nat>)
    ensures forall k :: k in r <==> 0 <= k < j
    ensures forall k :: k in r ==> r[k] == k
  {
    if j == 0 then map[] else Own(j - 1)[j - 1 := j - 1]
  }

  function Idles(j: nat): (r: seq<Worker>)
    ensures |r| == j && forall i :: 0 <= i < j ==> r[i] == Idle
  {
    seq(j, _ => Idle)
  }

  /** j chunks are issued and j workers launched; the first worker is about to ask for the
      first chunk again, the others idle, and the reader has not started. */
  function Lined(g: Config, j: nat): State
    requires g.part >= 1 && j >= 1
  {
    State(j, At(g, j), g.workers - j, Own(j), Fresh(g, j), Rest(g, j), Unlocked,
          [Trying(ChunkAt(g, 0))] + Idles(j - 1), Popping, 0, 0, [])
  }

  lemma LinedFirst(g: Config)
    requires Sane(g)
    ensures Reachable(g, Lined(g, 1))
  {
    SizeFits(g.length, g.part, 0);
    Tiles(g.length, g.part, 0);
    AtLeastTwo(g.length, g.part);
    var s := Init(g);
    assert Run(g, []) == Some(s);
    assert s.queue == [ChunkAt(g, 0)] && s.bufs == Fresh(g, 1) && s.bufMap == Own(1) && s.workers == [Idle];
    var t := Takes(g, s, 0);
    assert t.queue == Rest(g, 1) && t.workers == [Trying(ChunkAt(g, 0))] + Idles(0);
    assert t == Lined(g, 1);
  }

  /** The first worker gets an answer, launches one more worker with the next chunk, and
      gets no byte. */
  lemma LinedNext(g: Config, j: nat)
    requires Sane(g) && 1 <= j < g.workers && Reachable(g, Lined(g, j))
    ensures Reachable(g, Lined(g, j + 1))
  {
    var s := Lined(g, j);
    var c := ChunkAt(g, 0);
    s := Answered(g, s, 0);
    assert s.workers == [Opened(c)] + Idles(j - 1);
    s := LinedLaunch(g, s, j);
    s := LinedDeliver(g, s, j);
    s := BodyFails(g, s, 0);
    assert Advance(c, 0) == c;
    assert s.workers == [Trying(c)] + Idles(j);
    assert s == Lined(g, j + 1);
  }

  lemma LinedLaunch(g: Config, s: State, j: nat) returns (s': State)
    requires Sane(g) && 1 <= j < g.workers && Reachable(g, s)
    requires s == Lined(g, j).(workers := [Opened(ChunkAt(g, 0))] + Idles(j - 1))
    ensures Reachable(g, s')
    ensures s' == Lined(g, j + 1).(workers := [Launching(ChunkAt(g, 0))] + Idles(j), mu := Locked(Some(0)))
  {
    var t := SetWorker(s, 0, Launching(ChunkAt(g, 0)));
    assert t.workers == [Launching(ChunkAt(g, 0))] + Idles(j - 1);
    LinedIssue(g, t, j);
    var e := Launch(0, false);
    assert Next(g, s, e) == Some(SendChunk(g, t, true, false, Some(0)));
    s' := Step(g, s, e);
  }

  lemma LinedIssue(g: Config, t: State, j: nat)
    requires Sane(g) && 1 <= j < g.workers
    requires t == Lined(g, j).(workers := [Launching(ChunkAt(g, 0))] + Idles(j - 1))
    ensures SendChunk(g, t, true, false, Some(0)) ==
      Lined(g, j + 1).(workers := [Launching(ChunkAt(g, 0))] + Idles(j), mu := Locked(Some(0)))
  {
    ChunkInRange(g, j);
    var size := ChunkSize(g.length, g.part, j);
    assert (t.bufs + [Buffer(g.part, 0, [], false)])[j := Buffer(size, 0, [], false)] == Fresh(g, j + 1);
    assert t.queue + [Chunk(j, At(g, j), size, j, true)] == Rest(g, j + 1);
    assert t.workers + [Idle] == [Launching(ChunkAt(g, 0))] + Idles(j);
    assert t.bufMap[j as int := j] == Own(j + 1);
  }

  lemma LinedDeliver(g: Config, s: State, j: nat) returns (s': State)
    requires Sane(g) && 1 <= j < g.workers && Reachable(g, s)
    requires s == Lined(g, j + 1).(workers := [Launching(ChunkAt(g, 0))] + Idles(j), mu := Locked(Some(0)))
    ensures Reachable(g, s') && s' == Lined(g, j + 1).(workers := [Copying(ChunkAt(g, 0), 0)] + Idles(j))
  {
    s' := Step(g, s, Deliver);
    assert s'.workers == [Copying(ChunkAt(g, 0), 0)] + Idles(j);
  }

  lemma {:induction false} LinedUp(g: Config, j: nat)
    requires Sane(g) && 1 <= j <= g.workers
    ensures Reachable(g, Lined(g, j))
  {
    if j == 1 {
      LinedFirst(g);
    } else {
      LinedUp(g, j - 1);
      LinedNext(g, j - 1);
    }
  }

  /*** steps of the reader ***/

  /** The reader reads a full buffer to its end and hands it on. */
  lemma Drains(g: Config, s: State) returns (s': State)
    requires Sane(g) && Reachable(g, s) && s.phase.Popping? && s.mu.Unlocked? && s.mrPos + 1 < Parts(g)
    requires s.mrPos in s.bufMap && s.bufMap[s.mrPos] < |s.bufs| && FullBuffer(s.bufs[s.bufMap[s.mrPos]])
    requires s.nextChunk != s.mrPos && s.nextChunk !in s.bufMap
    ensures Reachable(g, s') && s'.phase.Sending? && |s'.bufs| == |s.bufs|
    ensures var br := s.bufMap[s.mrPos];
      s' == s.(phase := Sending, mrPos := s.mrPos + 1, cur := br, out := s'.out, bufs := s.bufs[br := s'.bufs[br]],
               bufMap := (s.bufMap - {s.mrPos})[-1 := br][s.nextChunk as int := br])
  {
    var br := s.bufMap[s.mrPos];
    s' := Step(g, s, Pop);
    s' := ReadsAll(g, s');
    s' := Step(g, s', EndOfBuffer);
    s' := Step(g, s', Deposit);
  }

  lemma ReadsAll(g: Config, s: State) returns (s': State)
    requires Sane(g) && Reachable(g, s) && s.phase.Reading? && s.cur < |s.bufs| && FullBuffer(s.bufs[s.cur])
    ensures Reachable(g, s') && |s'.bufs| == |s.bufs| && s'.bufs[s.cur].read == s'.bufs[s.cur].limit
    ensures s' == s.(bufs := s.bufs[s.cur := s'.bufs[s.cur]], out := s'.out)
  {
    s' := Step(g, s, Read(|s.bufs[s.cur].data|));
  }

  /** The buffer it handed on is used for the next chunk. */
  lemma Issues(g: Config, s: State) returns (s': State)
    requires Sane(g) && Reachable(g, s) && s.phase.Sending? && s.mu.Unlocked? && s.nextChunk in s.bufMap
      && s.nextChunk < Parts(g)
    ensures Reachable(g, s') && s.bufMap[s.nextChunk] < |s.bufs| == |s'.bufs| && |s'.queue| == |s.queue| + 1
    ensures var br := s.bufMap[s.nextChunk];
      s' == s.(phase := Delivering, mu := Locked(None), queue := s'.queue, nextChunk := s.nextChunk + 1, pos := s'.pos,
               bufs := s.bufs[br := s'.bufs[br]])
  {
    ReachableInv(g, s);
    var t := s.(phase := Delivering);
    PhaseCore(g, s, t);
    SendForm(g, t, false, false, None);
    s' := Step(g, s, Send(false));
    assert s.bufMap[s.nextChunk as int := s.bufMap[s.nextChunk]] == s.bufMap;
  }

  lemma Delivers(g: Config, s: State) returns (s': State)
    requires Sane(g) && Reachable(g, s) && s.phase.Delivering? && s.mu == Locked(None) && |s.queue| <= g.workers
    ensures Reachable(g, s') && s' == s.(phase := Popping, mu := Unlocked)
  {
    s' := Step(g, s, Deliver);
  }

  /** With every chunk issued there is nothing to send. */
  lemma SendsNothing(g: Config, s: State) returns (s': State)
    requires Sane(g) && Reachable(g, s) && s.phase.Sending? && s.mu.Unlocked? && s.nextChunk == Parts(g)
    ensures Reachable(g, s') && s' == s.(phase := Popping)
  {
    ReachableInv(g, s);
    EndsAtLast(g, s.nextChunk);
    s' := Step(g, s, Send(false));
  }

  /*** the channel full, the mutex held ***/

  /** A sender holds the mutex and has to wait for room in the channel. */
  predicate Blocked(g: Config, s: State) {
    s.mu.Locked? && InChannel(s) >= g.workers
  }

  /** The worker with the first chunk fetches it. */
  lemma FirstFetched(g: Config, s: State) returns (s': State)
    requires Sane(g) && Reachable(g, s) && s.mu.Unlocked? && s.concurrency <= 0
    requires |s.workers| > 0 && s.workers[0] == Trying(ChunkAt(g, 0)) && |s.bufs| > 0
    requires s.bufs[0] == Buffer(ChunkSize(g.length, g.part, 0), 0, [], false)
    ensures Reachable(g, s') && |s'.bufs| == |s.bufs| && FullBuffer(s'.bufs[0])
    ensures s' == s.(workers := s.workers[0 := Idle], bufs := s.bufs[0 := s'.bufs[0]])
  {
    ChunkInRange(g, 0);
    s' := Answered(g, s, 0);
    s' := LaunchesNone(g, s', 0);
    s' := CopiesAll(g, s', 0);
    s' := BodyDone(g, s', 0);
    assert s'.workers == s.workers[0 := Idle];
  }

  /** The second worker fetches its chunk to the last byte, is told that the body broke, is
      refused, and gives back a chunk with nothing left. */
  lemma SecondGivesNothingBack(g: Config) returns (s: State)
    requires Sane(g) && g.workers >= 2
    ensures Reachable(g, s) && s.phase.Popping? && s.mrPos == 0 && s.mu.Unlocked? && s.concurrency < 0
    ensures s.nextChunk == g.workers && s.bufMap == Own(g.workers) && |s.queue| == g.workers - 1
    ensures |s.workers| == g.workers && s.workers[0] == Trying(ChunkAt(g, 0))
    ensures |s.bufs| == g.workers && s.bufs[0] == Fresh(g, 1)[0] && FullBuffer(s.bufs[1])
  {
    ChunkInRange(g, 1);
    ChunkInRange(g, 0);
    LinedUp(g, g.workers);
    s := Lined(g, g.workers);
    s := Takes(g, s, 1);
    assert s.workers[1] == Trying(ChunkAt(g, 1));
    s := Answered(g, s, 1);
    s := LaunchesNone(g, s, 1);
    s := CopiesAll(g, s, 1);
    s := BodyFails(g, s, 1);
    s := Quits(g, s, 1);
  }

  /** The reader passes a full buffer on to a chunk that still goes into the channel. */
  lemma PassesOn(g: Config, s: State) returns (s': State)
    requires Sane(g) && Reachable(g, s) && s.phase.Popping? && s.mu.Unlocked? && s.mrPos + 1 < Parts(g)
    requires s.mrPos in s.bufMap && s.bufMap[s.mrPos] < |s.bufs| && FullBuffer(s.bufs[s.bufMap[s.mrPos]])
    requires s.nextChunk != s.mrPos && s.nextChunk !in s.bufMap && s.nextChunk < Parts(g)
    ensures Reachable(g, s') && s'.phase.Delivering? && s'.mu == Locked(None) && s'.mrPos == s.mrPos + 1
    ensures s'.nextChunk == s.nextChunk + 1 && |s'.queue| == |s.queue| + 1 && |s'.bufs| == |s.bufs|
    ensures s'.bufMap == (s.bufMap - {s.mrPos})[-1 := s.bufMap[s.mrPos]][s.nextChunk as int := s.bufMap[s.mrPos]]
    ensures forall b :: 0 <= b < |s.bufs| && b != s.bufMap[s.mrPos] ==> s'.bufs[b] == s.bufs[b]
    ensures s'.workers == s.workers
  {
    var t := Drains(g, s);
    s' := Issues(g, t);
  }

  lemma ChannelFull(g: Config) returns (s: State)
    requires Sane(g) && g.workers >= 2 && Parts(g) >= g.workers + 2
    ensures Reachable(g, s) && Blocked(g, s)
  {
    s := SecondGivesNothingBack(g);
    s := FirstFetched(g, s);
    s := PassesOn(g, s);
    s := Delivers(g, s);
    s := PassesOn(g, s);
  }

  /** A download can have to wait for room, with the mutex held, exactly when it is allowed
      a second worker and has at least two chunks more than workers. */
  lemma CanBlockIff(g: Config)
    requires Sane(g)
    ensures (exists s :: Reachable(g, s) && Blocked(g, s)) <==> g.workers >= 2 && Parts(g) >= g.workers + 2
  {
    if g.workers >= 2 && Parts(g) >= g.workers + 2 {
      var s := ChannelFull(g);
    } else {
      forall s | Reachable(g, s) ensures !Blocked(g, s) {
        var es :| Run(g, es) == Some(s);
        AlwaysRoomy(g, es, s);
      }
    }
  }

  /*** all workers gone ***/

  /** Both workers of the first two chunks are refused the second one and quit. */
  lemma BothQuit(g: Config) returns (s: State)
    requires Sane(g) && g.workers >= 2
    ensures Reachable(g, s) && s.phase.Popping? && s.mrPos == 0 && s.mu.Unlocked? && s.nextChunk == 2
    ensures s.bufMap == Own(2) && |s.queue| == 1 && s.workers == [Gone, Gone]
    ensures |s.bufs| == 2 && FullBuffer(s.bufs[0]) && s.bufs[1] == Buffer(ChunkSize(g.length, g.part, 1), 0, [], false)
  {
    LinedUp(g, 2);
    s := Lined(g, 2);
    s := Takes(g, s, 1);
    s := Quits(g, s, 1);
    assert s.queue == [ChunkAt(g, 1)];
    s := FirstFetched(g, s);
    s := Takes(g, s, 0);
    s := Quits(g, s, 0);
    assert s.workers == [Gone, Gone];
  }

  /** The reader reads the first chunk and hands its buffer on. */
  lemma FirstRead(g: Config) returns (s: State)
    requires Sane(g) && g.workers >= 2
    ensures Reachable(g, s) && s.phase.Popping? && s.mrPos == 1 && s.mu.Unlocked? && s.workers == [Gone, Gone]
    ensures 1 in s.bufMap && s.bufMap[1] == 1
    ensures |s.bufs| == 2 && s.bufs[1] == Buffer(ChunkSize(g.length, g.part, 1), 0, [], false)
  {
    AtLeastTwo(g.length, g.part);
    s := BothQuit(g);
    if Parts(g) > 2 {
      s := PassesOn(g, s);
      s := Delivers(g, s);
    } else {
      s := Drains(g, s);
      s := SendsNothing(g, s);
    }
  }

  /** It then waits for the second. */
  lemma ReaderLeftWaiting(g: Config) returns (s: State)
    requires Sane(g) && g.workers >= 2
    ensures Reachable(g, s) && Waits(s) && AllGone(s)
  {
    SizeFits(g.length, g.part, 1);
    s := FirstRead(g);
    s := Step(g, s, Pop);
  }

  ghost predicate Stalled(g: Config, s: State)
    requires g.part >= 1
  {
    Reachable(g, s) && Dead(g, s) && !s.phase.Finished?
  }

  /** A download can come to rest before its end, for good, exactly when it is allowed a
      second worker: a chunk that launched a worker makes every worker quit that is refused
      it. */
  lemma CanStallIff(g: Config)
    requires Sane(g)
    ensures (exists s :: Stalled(g, s)) <==> g.workers >= 2
  {
    if g.workers >= 2 {
      var s := ReaderLeftWaiting(g);
      ReachableInv(g, s);
      WaitsForever(g, s);
      assert Stalled(g, s);
    } else {
      forall s ensures !Stalled(g, s) {
        if Stalled(g, s) {
          SingleMovesOn(g, s);
        }
      }
    }
  }

  lemma SingleMovesOn(g: Config, s: State)
    requires Sane(g) && g.workers == 1 && Reachable(g, s) && !s.phase.Finished?
    ensures !Dead(g, s)
  {
    var es :| Run(g, es) == Some(s);
    AlwaysRoomy(g, es, s);
    SingleRuns(g, es);
    Resting(g, s);
    assert !AllGone(s);
  }
}

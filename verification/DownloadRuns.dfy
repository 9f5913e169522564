/** What every run of the downloader keeps, and what follows from it for the reader. */
module DownloadRuns {
  import opened Wrappers
  import opened ChunkSizes
  import opened Downloader

  /** The worker holds a chunk. */
  predicate Busy(wk: Worker) {
    wk.Trying? || wk.Opened? || wk.Launching? || wk.Copying? || wk.Requeueing?
  }

  /** What is left of the chunk the worker holds. */
  function Left(wk: Worker): Chunk
    requires Busy(wk)
  {
    if wk.Copying? then Advance(wk.c, wk.n) else wk.c
  }

  /** A chunk issued and not yet read to its end. */
  predicate Alive(s: State, i: int) {
    s.mrPos <= i < s.nextChunk
  }

  predicate InHand(s: State, i: int) {
    s.phase.Reading? && i == s.mrPos
  }

  /** The buffer of a live chunk. */
  function Owner(s: State, i: int): nat {
    if InHand(s, i) then s.cur else if i in s.bufMap then s.bufMap[i] else 0
  }

  /** The buffer holds the beginning of chunk i. */
  predicate Holds(g: Config, b: Buffer, i: nat)
    requires g.part >= 1
  {
    && !b.closed && b.limit == ChunkSize(g.length, g.part, i) && b.read <= |b.data| <= b.limit
    && 0 <= At(g, i) && At(g, i) + |b.data| <= |g.remote|
    && b.data == g.remote[At(g, i)..At(g, i) + |b.data|]
  }

  predicate ContentOk(g: Config, s: State, i: nat)
    requires g.part >= 1
  {
    && Owner(s, i) < |s.bufs| && Holds(g, s.bufs[Owner(s, i)], i)
    && (!InHand(s, i) ==> s.bufs[Owner(s, i)].read == 0)
  }

  /** The rest of a chunk ends where its chunk ends, belongs in the chunk's buffer, and
      is exactly what that buffer lacks; a chunk already read has nothing left. */
  predicate ChunkOk(g: Config, s: State, c: Chunk)
    requires g.part >= 1
  {
    && c.id < s.nextChunk && c.size >= 0 && c.start + c.size == At(g, c.id + 1)
    && (c.id < s.mrPos ==> c.size == 0)
    && (c.id >= s.mrPos ==>
       c.buf == Owner(s, c.id) && c.buf < |s.bufs| && c.size == s.bufs[c.buf].limit - |s.bufs[c.buf].data|)
  }

  predicate Queued(s: State, i: int) {
    exists k :: 0 <= k < |s.queue| && s.queue[k].id == i
  }

  predicate HeldBy(s: State, w: nat, i: int) {
    w < |s.workers| && Busy(s.workers[w]) && Left(s.workers[w]).id == i
  }

  ghost predicate Held(s: State, i: int) {
    exists w: nat :: HeldBy(s, w, i)
  }

  predicate Complete(s: State, i: int) {
    Owner(s, i) < |s.bufs| && |s.bufs[Owner(s, i)].data| >= s.bufs[Owner(s, i)].limit
  }

  /** No chunk is in two places. */
  ghost predicate Distinct(s: State) {
    && (forall j, k :: 0 <= j < k < |s.queue| ==> s.queue[j].id != s.queue[k].id)
    && (forall v: nat, w: nat, i :: HeldBy(s, v, i) && HeldBy(s, w, i) ==> v == w)
    && (forall k, w: nat :: 0 <= k < |s.queue| ==> !HeldBy(s, w, s.queue[k].id))
  }

  ghost predicate Chunks(g: Config, s: State)
    requires g.part >= 1
  {
    && (forall k :: 0 <= k < |s.queue| ==> ChunkOk(g, s, s.queue[k]))
    && (forall w :: 0 <= w < |s.workers| && Busy(s.workers[w]) ==> ChunkOk(g, s, Left(s.workers[w])))
    && Distinct(s)
    && (forall i :: Alive(s, i) ==> Complete(s, i) || Queued(s, i) || Held(s, i))
  }

  /** The buffers a later chunk may be written to: one key each, none of them closed or
      in the reader's hand. */
  ghost predicate Buffers(s: State) {
    && (forall i :: Alive(s, i) && !InHand(s, i) ==> i in s.bufMap)
    && (forall k :: k in s.bufMap && k != -1 ==> s.mrPos <= k <= s.nextChunk && !InHand(s, k))
    && (forall k :: k in s.bufMap && k != -1 ==> s.bufMap[k] < |s.bufs| && !s.bufs[s.bufMap[k]].closed)
    && (forall j, k :: j in s.bufMap && k in s.bufMap && j != -1 && k != -1 && j != k ==> s.bufMap[j] != s.bufMap[k])
    && (s.phase.Reading? || s.phase.Depositing? || s.phase.Closing? ==>
          s.cur < |s.bufs| && !s.bufs[s.cur].closed && forall k :: k in s.bufMap && k != -1 ==> s.bufMap[k] != s.cur)
  }

  ghost predicate Core(g: Config, s: State)
    requires g.part >= 1
  {
    && s.nextChunk <= Parts(g) && s.pos == At(g, s.nextChunk)
    && Buffers(s) && Chunks(g, s)
    && (forall i :: Alive(s, i) ==> ContentOk(g, s, i))
  }

  /** The reader's buffer was handed on and taken for a chunk by a worker. */
  predicate Taken(s: State) {
    s.phase.Sending? && s.nextChunk !in s.bufMap
  }

  /** What holds at each place the reader can be at; `Lost` is none of them. */
  predicate Turn(g: Config, s: State)
    requires g.part >= 1
  {
    && (s.phase.Finished? <==> s.mrPos == Parts(g)) && !s.phase.Lost? && s.mrPos <= s.nextChunk
    && (s.phase.Reading? || s.phase.Delivering? || s.phase.Popping? || s.phase.Closing? ==> s.mrPos < s.nextChunk)
    && (s.phase.Sending? && s.mrPos == s.nextChunk ==> s.nextChunk in s.bufMap)
    && (s.phase.Closing? ==> s.nextChunk == Parts(g))
    && (s.nextChunk in s.bufMap ==> s.phase.Sending? || s.nextChunk == Parts(g))
  }

  /** The mutex is held exactly by the one that waits to put its chunk into the channel. */
  predicate MutexOk(s: State) {
    && (s.phase.Delivering? <==> s.mu.Locked? && s.mu.sender.None?)
    && (forall w :: 0 <= w < |s.workers| ==> (s.workers[w].Launching? <==> s.mu.Locked? && s.mu.sender == Some(w)))
    && (s.mu.Locked? && s.mu.sender.Some? ==> s.mu.sender.value < |s.workers|)
    && (s.mu.Locked? ==> s.queue != [])
  }

  /** Every buffer was paid for by the launch of a worker. */
  predicate Budget(g: Config, s: State) {
    && |s.workers| <= g.workers && (s.concurrency >= 0 ==> |s.workers| + s.concurrency == g.workers)
    && |s.bufs| + (if Taken(s) then 1 else 0) <= |s.workers|
  }

  /** How far into the range the reader is. */
  function Consumed(g: Config, s: State): int
    requires g.part >= 1
  {
    Offset(g.length, g.part, s.mrPos) + if s.phase.Reading? && s.cur < |s.bufs| then s.bufs[s.cur].read else 0
  }

  /** The reader got the bytes of the range in order. */
  predicate Output(g: Config, s: State)
    requires g.part >= 1
  {
    && 0 <= Consumed(g, s) && g.start + Consumed(g, s) <= |g.remote|
    && s.out == g.remote[g.start..g.start + Consumed(g, s)]
  }

  ghost predicate Base(g: Config, s: State) {
    Sane(g) && Core(g, s) && Turn(g, s) && Budget(g, s) && Output(g, s)
  }

  ghost predicate Inv(g: Config, s: State) {
    Base(g, s) && MutexOk(s)
  }

  /*** the chunks of the range ***/

  lemma ChunkInRange(g: Config, i: nat)
    requires Sane(g) && i < Parts(g)
    ensures 0 <= At(g, i) && At(g, i + 1) == At(g, i) + ChunkSize(g.length, g.part, i)
    ensures 0 < ChunkSize(g.length, g.part, i) <= g.part && At(g, i + 1) <= g.start + g.length <= |g.remote|
    ensures At(g, i) < g.start + g.length
  {
    SizeFits(g.length, g.part, i);
    Tiles(g.length, g.part, i);
    Tiles(g.length, g.part, i + 1);
  }

  lemma EndsAtLast(g: Config, i: nat)
    requires Sane(g) && i <= Parts(g)
    ensures At(g, i) >= g.start + g.length <==> i == Parts(g)
    ensures At(g, i) <= g.start + g.length
  {
    Tiles(g.length, g.part, i);
  }

  /*** a worker that keeps its chunk, or drops one with nothing left ***/

  /** The worker changed its mind about the chunk, not the chunk. */
  predicate SameHold(a: Worker, b: Worker) {
    Busy(a) == Busy(b) && (Busy(a) ==> Left(a) == Left(b))
  }

  /** Only the places of the chunks may differ. */
  predicate SameView(s: State, s': State) {
    && s'.nextChunk == s.nextChunk && s'.pos == s.pos && s'.mrPos == s.mrPos && s'.phase == s.phase
    && s'.cur == s.cur && s'.bufMap == s.bufMap && s'.bufs == s.bufs && s'.out == s.out
  }

  lemma ViewChunk(g: Config, s: State, s': State, c: Chunk)
    requires g.part >= 1 && SameView(s, s')
    ensures ChunkOk(g, s, c) == ChunkOk(g, s', c)
  {
  }

  lemma ViewContent(g: Config, s: State, s': State, i: nat)
    requires g.part >= 1 && SameView(s, s')
    ensures ContentOk(g, s, i) == ContentOk(g, s', i) && Complete(s, i) == Complete(s', i)
      && Alive(s, i) == Alive(s', i)
  {
  }

  lemma ViewBuffers(s: State, s': State)
    requires SameView(s, s') && Buffers(s)
    ensures Buffers(s')
  {
  }

  lemma ViewKept(g: Config, s: State, s': State)
    requires SameView(s, s') && Base(g, s) && Chunks(g, s') && Budget(g, s')
    ensures Base(g, s')
  {
    ViewBuffers(s, s');
    forall i | Alive(s', i) ensures ContentOk(g, s', i) {
      ViewContent(g, s, s', i);
    }
  }

  lemma HoldsOn(g: Config, s: State, w: nat, wk: Worker, concurrency: int)
    requires Base(g, s) && w < |s.workers|
    requires SameHold(s.workers[w], wk) || (Busy(s.workers[w]) && !Busy(wk) && Left(s.workers[w]).size == 0)
    requires concurrency == s.concurrency || concurrency < 0
    ensures Base(g, SetWorker(s, w, wk).(concurrency := concurrency))
  {
    var s' := SetWorker(s, w, wk).(concurrency := concurrency);
    assert forall v: nat, i :: HeldBy(s', v, i) ==> HeldBy(s, v, i);
    forall i | Alive(s', i) ensures Complete(s', i) || Queued(s', i) || Held(s', i) {
      ViewContent(g, s, s', i);
      assert Queued(s', i) == Queued(s, i);
      if !Complete(s, i) && !Queued(s, i) {
        var v: nat :| HeldBy(s, v, i);
        assert ChunkOk(g, s, Left(s.workers[v]));
        assert HeldBy(s', v, i);
      }
    }
    forall k | 0 <= k < |s'.queue| ensures ChunkOk(g, s', s'.queue[k]) {
      ViewChunk(g, s, s', s.queue[k]);
    }
    forall v | 0 <= v < |s'.workers| && Busy(s'.workers[v]) ensures ChunkOk(g, s', Left(s'.workers[v])) {
      ViewChunk(g, s, s', Left(s.workers[v]));
    }
    ViewKept(g, s, s');
  }

  /*** chunks that change hands ***/

  lemma Received(g: Config, s: State, w: nat)
    requires Base(g, s) && w < |s.workers| && s.workers[w].Idle? && s.queue != []
    ensures Base(g, SetWorker(s, w, Trying(s.queue[0])).(queue := s.queue[1..]))
  {
    var c := s.queue[0];
    var s' := SetWorker(s, w, Trying(c)).(queue := s.queue[1..]);
    assert forall v: nat, i :: HeldBy(s', v, i) ==> if v == w then i == c.id else HeldBy(s, v, i);
    assert forall k :: 0 <= k < |s'.queue| ==> s'.queue[k] == s.queue[k + 1];
    forall i | Alive(s', i) ensures Complete(s', i) || Queued(s', i) || Held(s', i) {
      ViewContent(g, s, s', i);
      if !Complete(s, i) {
        if Queued(s, i) {
          var k :| 0 <= k < |s.queue| && s.queue[k].id == i;
          assert if k == 0 then HeldBy(s', w, i) else s'.queue[k - 1].id == i;
        } else {
          var v: nat :| HeldBy(s, v, i);
          assert HeldBy(s', v, i);
        }
      }
    }
    forall k | 0 <= k < |s'.queue| ensures ChunkOk(g, s', s'.queue[k]) {
      ViewChunk(g, s, s', s.queue[k + 1]);
    }
    forall v | 0 <= v < |s'.workers| && Busy(s'.workers[v]) ensures ChunkOk(g, s', Left(s'.workers[v])) {
      ViewChunk(g, s, s', Left(s'.workers[v]));
    }
    ViewKept(g, s, s');
  }

  /** q' is q with c put before position n. */
  predicate Inserted(q: seq<Chunk>, n: nat, c: Chunk, q': seq<Chunk>) {
    && n <= |q| && |q'| == |q| + 1 && q'[n] == c
    && (forall k :: 0 <= k < n ==> q'[k] == q[k])
    && (forall k :: n < k < |q'| ==> q'[k] == q[k - 1])
  }

  lemma Requeued(g: Config, s: State, w: nat, n: nat, queue: seq<Chunk>)
    requires Base(g, s) && w < |s.workers| && s.workers[w].Requeueing? && Inserted(s.queue, n, s.workers[w].c, queue)
    ensures Base(g, SetWorker(s, w, Gone).(queue := queue))
  {
    var c := s.workers[w].c;
    var s' := SetWorker(s, w, Gone).(queue := queue);
    assert HeldBy(s, w, c.id);
    assert forall v: nat, i :: HeldBy(s', v, i) ==> v != w && HeldBy(s, v, i);
    RequeuedPlaces(s, s', w, n, c);
    forall i | Alive(s', i) ensures Complete(s', i) || Queued(s', i) || Held(s', i) {
      ViewContent(g, s, s', i);
    }
    forall k | 0 <= k < |s'.queue| ensures ChunkOk(g, s', s'.queue[k]) {
      ViewChunk(g, s, s', s'.queue[k]);
    }
    forall v | 0 <= v < |s'.workers| && Busy(s'.workers[v]) ensures ChunkOk(g, s', Left(s'.workers[v])) {
      ViewChunk(g, s, s', Left(s'.workers[v]));
    }
    ViewKept(g, s, s');
  }

  lemma RequeuedPlaces(s: State, s': State, w: nat, n: nat, c: Chunk)
    requires w < |s.workers| && s.workers[w] == Requeueing(c) && s'.workers == s.workers[w := Gone]
    requires Inserted(s.queue, n, c, s'.queue) && Distinct(s)
    ensures Distinct(s')
    ensures forall i :: Queued(s, i) || Held(s, i) ==> Queued(s', i) || Held(s', i)
  {
    assert HeldBy(s, w, c.id);
    assert forall v: nat, i :: HeldBy(s', v, i) ==> v != w && HeldBy(s, v, i);
    forall i | Queued(s, i) || Held(s, i) ensures Queued(s', i) || Held(s', i) {
      if Queued(s, i) {
        var k :| 0 <= k < |s.queue| && s.queue[k].id == i;
        assert s'.queue[if k < n then k else k + 1].id == i;
      } else {
        var v: nat :| HeldBy(s, v, i);
        assert if v == w then s'.queue[n].id == i else HeldBy(s', v, i);
      }
    }
  }

  /*** bytes written to a buffer ***/

  /** A copy always fits, goes to the live buffer of its chunk, and makes the buffer hold
      a longer beginning of that chunk. */
  lemma CopyFits(g: Config, s: State, w: nat, k: nat)
    requires Base(g, s) && w < |s.workers| && s.workers[w].Copying?
    requires 0 < k <= s.workers[w].c.size - s.workers[w].n
    ensures var c, n := s.workers[w].c, s.workers[w].n;
      && Alive(s, c.id) && c.buf == Owner(s, c.id) && c.buf < |s.bufs| && ContentOk(g, s, c.id)
      && 0 <= c.start + n && c.start + n + k <= |g.remote|
      && k <= s.bufs[c.buf].limit - |s.bufs[c.buf].data|
      && c.start + n == At(g, c.id) + |s.bufs[c.buf].data|
      && c.size - n == s.bufs[c.buf].limit - |s.bufs[c.buf].data|
  {
    var c := Left(s.workers[w]);
    assert ChunkOk(g, s, c);
    assert Alive(s, c.id);
    assert ContentOk(g, s, c.id);
    ChunkInRange(g, c.id);
  }

  function Stored(g: Config, b: Buffer, at: int, k: nat): Buffer
    requires 0 <= at && at + k <= |g.remote|
  {
    b.(data := b.data + g.remote[at..at + k])
  }

  lemma StoredHolds(g: Config, b: Buffer, i: nat, k: nat)
    requires g.part >= 1 && Holds(g, b, i) && k <= b.limit - |b.data| && At(g, i) + |b.data| + k <= |g.remote|
    ensures Holds(g, Stored(g, b, At(g, i) + |b.data|, k), i)
  {
    var at := At(g, i);
    var n := |b.data|;
    assert g.remote[at..at + n] + g.remote[at + n..at + n + k] == g.remote[at..at + n + k];
  }

  /** Owners of different live chunks are different buffers. */
  lemma OwnersDiffer(s: State, i: int, j: int)
    requires Buffers(s) && Alive(s, i) && Alive(s, j) && i != j
    ensures Owner(s, i) != Owner(s, j)
  {
  }

  lemma Copied(g: Config, s: State, w: nat, k: nat)
    requires Base(g, s) && w < |s.workers| && s.workers[w].Copying?
    requires 0 < k <= s.workers[w].c.size - s.workers[w].n
    requires s.workers[w].c.buf < |s.bufs| && 0 <= s.workers[w].c.start + s.workers[w].n
      && s.workers[w].c.start + s.workers[w].n + k <= |g.remote|
    ensures Base(g, Store(g, s, w, s.workers[w].c, s.workers[w].n, k))
  {
    CopyFits(g, s, w, k);
    var c, n := s.workers[w].c, s.workers[w].n;
    var s' := Store(g, s, w, c, n, k);
    var b' := Stored(g, s.bufs[c.buf], c.start + n, k);
    assert s' == SetWorker(s, w, Copying(c, n + k)).(bufs := s.bufs[c.buf := b']);
    StoredHolds(g, s.bufs[c.buf], c.id, k);
    CopiedChunks(g, s, s', w, k, b');
    CopiedContent(g, s, s', c.buf, c.id);
    CopiedRest(g, s, s', c.buf);
  }

  lemma CopiedContent(g: Config, s: State, s': State, buf: nat, id: nat)
    requires Base(g, s) && Alive(s, id) && buf == Owner(s, id) && buf < |s.bufs| && |s'.bufs| == |s.bufs|
    requires forall b :: 0 <= b < |s.bufs| && b != buf ==> s'.bufs[b] == s.bufs[b]
    requires Holds(g, s'.bufs[buf], id) && s'.bufs[buf].read == s.bufs[buf].read
    requires SameView(s, s'.(bufs := s.bufs))
    ensures forall i :: Alive(s', i) ==> ContentOk(g, s', i)
  {
    forall i | Alive(s', i) ensures ContentOk(g, s', i) {
      assert ContentOk(g, s, i) && Owner(s', i) == Owner(s, i);
      if i != id {
        OwnersDiffer(s, i, id);
      }
    }
  }

  lemma CopiedRest(g: Config, s: State, s': State, buf: nat)
    requires Base(g, s) && buf < |s.bufs| && |s'.bufs| == |s.bufs| && |s'.workers| == |s.workers|
    requires forall b :: 0 <= b < |s.bufs| && b != buf ==> s'.bufs[b] == s.bufs[b]
    requires s'.bufs[buf].closed == s.bufs[buf].closed && s'.bufs[buf].read == s.bufs[buf].read
    requires SameView(s, s'.(bufs := s.bufs)) && s'.concurrency == s.concurrency
    ensures Buffers(s') && Turn(g, s') && Budget(g, s') && Output(g, s')
  {
  }

  lemma CopiedChunks(g: Config, s: State, s': State, w: nat, k: nat, b': Buffer)
    requires Base(g, s) && w < |s.workers| && s.workers[w].Copying? && Left(s.workers[w]).id >= s.mrPos
    requires var c := s.workers[w].c; c.buf == Owner(s, c.id) && c.buf < |s.bufs| && 0 < k <= c.size - s.workers[w].n
    requires var c := s.workers[w].c; c.size - s.workers[w].n == s.bufs[c.buf].limit - |s.bufs[c.buf].data|
    requires |b'.data| == |s.bufs[s.workers[w].c.buf].data| + k && b'.limit == s.bufs[s.workers[w].c.buf].limit
    requires s' ==
      SetWorker(s, w, Copying(s.workers[w].c, s.workers[w].n + k)).(bufs := s.bufs[s.workers[w].c.buf := b'])
    ensures Chunks(g, s')
  {
    var c := s.workers[w].c;
    assert HeldBy(s, w, c.id);
    assert forall v: nat, i :: HeldBy(s', v, i) == HeldBy(s, v, i);
    forall i | Alive(s', i) ensures Complete(s', i) || Queued(s', i) || Held(s', i) {
      assert Alive(s, i) && Queued(s', i) == Queued(s, i);
      if Held(s, i) {
        var v: nat :| HeldBy(s, v, i);
        assert HeldBy(s', v, i);
      } else if !Queued(s, i) {
        OwnersDiffer(s, i, c.id);
      }
    }
    forall q | 0 <= q < |s'.queue| ensures ChunkOk(g, s', s'.queue[q]) {
      CopiedOther(g, s, s', c, s.queue[q]);
    }
    forall v | 0 <= v < |s'.workers| && Busy(s'.workers[v]) ensures ChunkOk(g, s', Left(s'.workers[v])) {
      if v != w {
        assert HeldBy(s, v, Left(s.workers[v]).id);
        CopiedOther(g, s, s', c, Left(s.workers[v]));
      }
    }
  }

  lemma CopiedOther(g: Config, s: State, s': State, c: Chunk, other: Chunk)
    requires Sane(g) && Buffers(s) && SameView(s, s'.(bufs := s.bufs)) && ChunkOk(g, s, other) && other.id != c.id
    requires Alive(s, c.id) && c.buf == Owner(s, c.id)
    requires |s'.bufs| == |s.bufs| && forall b :: 0 <= b < |s.bufs| && b != c.buf ==> s'.bufs[b] == s.bufs[b]
    ensures ChunkOk(g, s', other)
  {
    if other.id >= s.mrPos {
      OwnersDiffer(s, other.id, c.id);
    }
  }

  /*** issuing a chunk ***/

  /** s' is s with the next chunk issued into buffer br. */
  predicate Issued(g: Config, s: State, s': State, br: nat, launched: bool)
    requires g.part >= 1
  {
    var size := ChunkSize(g.length, g.part, s.nextChunk);
    && s.nextChunk < Parts(g)
    && br == (if s.nextChunk in s.bufMap then s.bufMap[s.nextChunk] else |s.bufs|)
    && s'.bufs == (if br < |s.bufs| then s.bufs[br := Buffer(size, 0, [], false)]
       else s.bufs + [Buffer(size, 0, [], false)])
    && s'.bufMap == s.bufMap[s.nextChunk as int := br]
    && s'.workers == (if launched then s.workers + [Idle] else s.workers)
    && s'.concurrency == (if launched then s.concurrency - 1 else s.concurrency)
    && s'.queue == s.queue + [Chunk(s.nextChunk, s.pos, size, br, launched)]
    && s'.pos == s.pos + size && s'.nextChunk == s.nextChunk + 1
    && s'.phase == s.phase && s'.mrPos == s.mrPos && s'.cur == s.cur && s'.out == s.out
  }

  /** The section either issues the next chunk or changes nothing: the buffer it picks is
      open and takes the size, so the reset is never refused.  With a buffer handed over,
      only the end of the range or the worker limit keep it from issuing. */
  lemma SendForm(g: Config, s: State, newConcurrency: bool, refused: bool, sender: Option<nat>)
    requires Sane(g) && Core(g, s) && s.mu.Unlocked?
    ensures var s' := SendChunk(g, s, newConcurrency, refused, sender);
      || (s' == s && (s.nextChunk == Parts(g) || s.nextChunk !in s.bufMap || newConcurrency))
      || (s'.mu.Locked? && s'.mu.sender == sender && exists br ::
            Issued(g, s, s', br, newConcurrency) && (newConcurrency ==> s.concurrency > 0))
  {
    EndsAtLast(g, s.nextChunk);
    SizeFits(g.length, g.part, s.nextChunk);
    var s' := SendChunk(g, s, newConcurrency, refused, sender);
    if s' != s {
      var br := if s.nextChunk in s.bufMap then s.bufMap[s.nextChunk] else |s.bufs|;
      assert Issued(g, s, s', br, newConcurrency);
    }
  }

  lemma IssuedOwners(g: Config, s: State, s': State, br: nat, launched: bool, i: int)
    requires Sane(g) && Buffers(s) && Issued(g, s, s', br, launched) && Alive(s, i) && Owner(s, i) < |s.bufs|
    ensures Alive(s', i) && InHand(s', i) == InHand(s, i) && Owner(s', i) == Owner(s, i) != br
    ensures Owner(s, i) < |s'.bufs| && s'.bufs[Owner(s, i)] == s.bufs[Owner(s, i)]
  {
  }

  lemma IssuedBuffers(g: Config, s: State, s': State, br: nat, launched: bool)
    requires Sane(g) && Buffers(s) && s.mrPos <= s.nextChunk && Issued(g, s, s', br, launched)
    requires s.phase.Reading? ==> s.mrPos < s.nextChunk
    ensures Buffers(s')
  {
  }

  lemma IssuedContent(g: Config, s: State, s': State, br: nat, launched: bool, i: nat)
    requires Sane(g) && Core(g, s) && s.mrPos <= s.nextChunk && Issued(g, s, s', br, launched) && Alive(s', i)
    requires s.phase.Reading? ==> s.mrPos < s.nextChunk
    ensures ContentOk(g, s', i)
  {
    if i < s.nextChunk {
      assert ContentOk(g, s, i);
      IssuedOwners(g, s, s', br, launched, i);
    } else {
      ChunkInRange(g, i);
      assert g.remote[At(g, i)..At(g, i)] == [];
    }
  }

  lemma IssuedChunk(g: Config, s: State, s': State, br: nat, launched: bool, c: Chunk)
    requires Sane(g) && Core(g, s) && s.mrPos <= s.nextChunk && Issued(g, s, s', br, launched) && ChunkOk(g, s, c)
    requires s.phase.Reading? ==> s.mrPos < s.nextChunk
    ensures ChunkOk(g, s', c)
  {
    if c.id >= s.mrPos {
      IssuedOwners(g, s, s', br, launched, c.id);
    }
  }

  lemma IssuedPlaces(g: Config, s: State, s': State, br: nat, launched: bool)
    requires Sane(g) && Core(g, s) && s.mrPos <= s.nextChunk && Issued(g, s, s', br, launched)
    ensures Distinct(s')
    ensures forall i :: Alive(s', i) ==> Complete(s', i) || Queued(s', i) || Held(s', i)
  {
    assert forall v: nat, i :: HeldBy(s', v, i) == HeldBy(s, v, i);
    forall v: nat, i | HeldBy(s, v, i) ensures i < s.nextChunk {
      assert ChunkOk(g, s, Left(s.workers[v]));
    }
    assert forall k :: 0 <= k < |s.queue| ==> s'.queue[k] == s.queue[k];
    assert forall k :: 0 <= k < |s.queue| ==> ChunkOk(g, s, s.queue[k]);
    forall i | Alive(s', i) ensures Complete(s', i) || Queued(s', i) || Held(s', i) {
      if i == s.nextChunk {
        assert s'.queue[|s.queue|].id == i;
      } else if Held(s, i) {
        var v: nat :| HeldBy(s, v, i);
        assert HeldBy(s', v, i);
      } else if Queued(s, i) {
        var k :| 0 <= k < |s.queue| && s.queue[k].id == i;
        assert s'.queue[k].id == i;
      } else {
        IssuedOwners(g, s, s', br, launched, i);
      }
    }
  }

  lemma IssuedCore(g: Config, s: State, s': State, br: nat, launched: bool)
    requires Sane(g) && Core(g, s) && s.mrPos <= s.nextChunk && Issued(g, s, s', br, launched)
    requires s.phase.Reading? ==> s.mrPos < s.nextChunk
    ensures Core(g, s')
  {
    ChunkInRange(g, s.nextChunk);
    IssuedBuffers(g, s, s', br, launched);
    forall i | Alive(s', i) ensures ContentOk(g, s', i) {
      IssuedContent(g, s, s', br, launched, i);
    }
    forall k | 0 <= k < |s'.queue| ensures ChunkOk(g, s', s'.queue[k]) {
      if k < |s.queue| {
        assert ChunkOk(g, s, s.queue[k]);
        IssuedChunk(g, s, s', br, launched, s.queue[k]);
      }
    }
    forall v | 0 <= v < |s'.workers| && Busy(s'.workers[v]) ensures ChunkOk(g, s', Left(s'.workers[v])) {
      assert ChunkOk(g, s, Left(s.workers[v]));
      IssuedChunk(g, s, s', br, launched, Left(s.workers[v]));
    }
    IssuedPlaces(g, s, s', br, launched);
  }

  lemma IssuedOutput(g: Config, s: State, s': State, br: nat, launched: bool)
    requires Sane(g) && Core(g, s) && Turn(g, s) && Output(g, s) && Issued(g, s, s', br, launched)
    ensures Output(g, s')
  {
    if s.phase.Reading? {
      assert Alive(s, s.mrPos) && ContentOk(g, s, s.mrPos);
      IssuedOwners(g, s, s', br, launched, s.mrPos);
    }
  }

  /** A worker launches another one. */
  lemma Launched(g: Config, s: State, refused: bool, sender: Option<nat>)
    requires Base(g, s) && s.mu.Unlocked?
    ensures Base(g, SendChunk(g, s, true, refused, sender))
  {
    SendForm(g, s, true, refused, sender);
    var s' := SendChunk(g, s, true, refused, sender);
    if s' != s {
      var br :| Issued(g, s, s', br, true);
      IssuedCore(g, s, s', br, true);
      IssuedOutput(g, s, s', br, true);
    }
  }

  /** The reader has its finished buffer, or another one, filled again. */
  lemma Sent(g: Config, s: State, refused: bool)
    requires Base(g, s) && s.phase.Sending? && s.mu.Unlocked?
    ensures var t := SendChunk(g, s.(phase := Delivering), false, refused, None);
      Base(g, if t.mu.Locked? then t else t.(phase := Popping))
  {
    var t := s.(phase := Delivering);
    PhaseCore(g, s, t);
    SendForm(g, t, false, refused, None);
    var s' := SendChunk(g, t, false, refused, None);
    if s' != t {
      var br :| Issued(g, t, s', br, false);
      IssuedCore(g, t, s', br, false);
    } else {
      PhaseCore(g, s, s.(phase := Popping));
    }
  }

  /** Between the sections that hand a buffer on, only the phase differs. */
  lemma PhaseCore(g: Config, s: State, t: State)
    requires Sane(g) && Core(g, s) && !s.phase.Reading? && (t.phase.Popping? || t.phase.Delivering?)
      && t == s.(phase := t.phase)
    ensures Core(g, t)
  {
    assert forall i :: Owner(t, i) == Owner(s, i);
    assert forall c :: ChunkOk(g, t, c) == ChunkOk(g, s, c);
    assert forall v: nat, i :: HeldBy(t, v, i) == HeldBy(s, v, i);
    forall i | Alive(t, i) ensures ContentOk(g, t, i) && (Complete(t, i) || Queued(t, i) || Held(t, i)) {
      assert Alive(s, i) && ContentOk(g, s, i);
      if Held(s, i) {
        var v: nat :| HeldBy(s, v, i);
        assert HeldBy(t, v, i);
      }
    }
  }

  /** The chunk goes from the hand of its sender to the end of the channel. */
  lemma Delivered(g: Config, s: State)
    requires Inv(g, s) && DeliverChunk(g, s).Some?
    ensures Base(g, DeliverChunk(g, s).value)
  {
    var t := s.(mu := Unlocked);
    SamePlaces(g, s, t);
    match s.mu.sender
    case None => PhaseCore(g, t, t.(phase := Popping));
    case Some(w) =>
      HoldsOn(g, t, w, Copying(s.workers[w].c, 0), t.concurrency);
      assert SetWorker(t, w, Copying(s.workers[w].c, 0)).(concurrency := t.concurrency) ==
        SetWorker(t, w, Copying(s.workers[w].c, 0));
  }

  lemma SamePlaces(g: Config, s: State, t: State)
    requires Base(g, s) && SameView(s, t) && t.queue == s.queue && t.workers == s.workers
      && t.concurrency == s.concurrency
    ensures Base(g, t)
  {
    assert forall v: nat, i :: HeldBy(t, v, i) == HeldBy(s, v, i);
    forall i | Alive(t, i) ensures Complete(t, i) || Queued(t, i) || Held(t, i) {
      ViewContent(g, s, t, i);
      if Held(s, i) {
        var v: nat :| HeldBy(s, v, i);
        assert HeldBy(t, v, i);
      }
    }
    forall k | 0 <= k < |t.queue| ensures ChunkOk(g, t, t.queue[k]) {
      ViewChunk(g, s, t, s.queue[k]);
    }
    forall v | 0 <= v < |t.workers| && Busy(t.workers[v]) ensures ChunkOk(g, t, Left(t.workers[v])) {
      ViewChunk(g, s, t, Left(s.workers[v]));
    }
    ViewKept(g, s, t);
  }

  /*** the reader ***/

  /** Views differ in how much of the buffer in hand was read. */
  lemma ReadOn(g: Config, s: State, k: nat)
    requires Base(g, s) && s.phase.Reading? && s.cur < |s.bufs|
    requires 0 < k <= |s.bufs[s.cur].data| - s.bufs[s.cur].read
    ensures var b := s.bufs[s.cur];
      Base(g, s.(bufs := s.bufs[s.cur := b.(read := b.read + k)], out := s.out + b.data[b.read..b.read + k]))
  {
    var b := s.bufs[s.cur];
    var b' := b.(read := b.read + k);
    var s' := s.(bufs := s.bufs[s.cur := b'], out := s.out + b.data[b.read..b.read + k]);
    assert Alive(s, s.mrPos) && ContentOk(g, s, s.mrPos);
    ReadCore(g, s, s', b');
    ReadOutput(g, s, s', k);
  }

  lemma ReadOutput(g: Config, s: State, s': State, k: nat)
    requires Sane(g) && Output(g, s) && s.phase.Reading? && s.cur < |s.bufs| && s.mrPos < Parts(g)
      && Holds(g, s.bufs[s.cur], s.mrPos)
    requires var b := s.bufs[s.cur];
      && b.read + k <= |b.data| && s'.out == s.out + b.data[b.read..b.read + k]
      && s'.phase.Reading? && s'.mrPos == s.mrPos && s'.cur == s.cur
         && s'.bufs == s.bufs[s.cur := b.(read := b.read + k)]
    ensures Output(g, s')
  {
    var b := s.bufs[s.cur];
    var at := At(g, s.mrPos);
    Tiles(g.length, g.part, s.mrPos);
    Glue(g.remote, g.start, at, b.data, b.read, k);
  }

  lemma Glue(remote: seq<Byte>, from: nat, at: nat, data: seq<Byte>, read: nat, k: nat)
    requires from <= at && at + |data| <= |remote| && read + k <= |data| && data == remote[at..at + |data|]
    ensures remote[from..at + read] + data[read..read + k] == remote[from..at + read + k]
  {
    assert forall i :: 0 <= i < |data| ==> data[i] == remote[at + i];
  }

  lemma ReadCore(g: Config, s: State, s': State, b': Buffer)
    requires Base(g, s) && s.phase.Reading? && s.cur < |s.bufs| && s'.bufs == s.bufs[s.cur := b']
    requires b' == s.bufs[s.cur].(read := b'.read) && b'.read <= |b'.data|
    requires s' == s.(bufs := s'.bufs, out := s'.out)
    ensures Core(g, s')
  {
    assert forall i :: Owner(s', i) == Owner(s, i) && InHand(s', i) == InHand(s, i);
    assert forall v: nat, i :: HeldBy(s', v, i) == HeldBy(s, v, i);
    forall i | Alive(s', i) ensures ContentOk(g, s', i) && (Complete(s', i) || Queued(s', i) || Held(s', i)) {
      assert Alive(s, i) && ContentOk(g, s, i) && Complete(s', i) == Complete(s, i);
      if Held(s, i) {
        var v: nat :| HeldBy(s, v, i);
        assert HeldBy(s', v, i);
      }
    }
    assert forall c :: ChunkOk(g, s', c) == ChunkOk(g, s, c);
  }

  /** Everything issued before the first chunk in `s'` was read; the rest is as in `s`. */
  lemma PassedChunks(g: Config, s: State, s': State)
    requires Sane(g) && Chunks(g, s) && s'.bufs == s.bufs && s'.queue == s.queue && s'.workers == s.workers
      && s'.nextChunk == s.nextChunk
    requires s.mrPos <= s'.mrPos && forall i :: Alive(s', i) ==> Owner(s', i) == Owner(s, i)
    requires forall i :: s.mrPos <= i < s'.mrPos ==>
      Complete(s, i) && |s.bufs[Owner(s, i)].data| == s.bufs[Owner(s, i)].limit
    ensures Chunks(g, s')
  {
    assert forall v: nat, i :: HeldBy(s', v, i) == HeldBy(s, v, i);
    forall i | Alive(s', i) ensures Complete(s', i) || Queued(s', i) || Held(s', i) {
      assert Alive(s, i);
      if Held(s, i) {
        var v: nat :| HeldBy(s, v, i);
        assert HeldBy(s', v, i);
      }
    }
    forall c | ChunkOk(g, s, c) ensures ChunkOk(g, s', c) {
      if s.mrPos <= c.id < s'.mrPos {
        assert Complete(s, c.id);
      } else if s'.mrPos <= c.id {
        assert Alive(s', c.id);
      }
    }
  }

  lemma Ended(g: Config, s: State)
    requires Base(g, s) && s.phase.Reading? && s.cur < |s.bufs| && s.bufs[s.cur].read >= s.bufs[s.cur].limit
    ensures Base(g, s.(mrPos := s.mrPos + 1, phase := if s.mrPos + 1 >= Parts(g) then Finished else Depositing))
  {
    var s' := s.(mrPos := s.mrPos + 1, phase := if s.mrPos + 1 >= Parts(g) then Finished else Depositing);
    assert Alive(s, s.mrPos) && ContentOk(g, s, s.mrPos) && Complete(s, s.mrPos);
    PassedChunks(g, s, s');
    forall i | Alive(s', i) ensures ContentOk(g, s', i) {
      assert ContentOk(g, s, i);
    }
    ChunkInRange(g, s.mrPos);
    assert Consumed(g, s') == Consumed(g, s);
  }

  lemma Deposited(g: Config, s: State)
    requires Base(g, s) && s.phase.Depositing?
    ensures Base(g, if s.nextChunk in s.bufMap then s.(phase := Closing)
      else s.(bufMap := s.bufMap[s.nextChunk as int := s.cur], phase := Sending))
  {
    var s' := if s.nextChunk in s.bufMap then s.(phase := Closing)
      else s.(bufMap := s.bufMap[s.nextChunk as int := s.cur], phase := Sending);
    PassedChunks(g, s, s');
    forall i | Alive(s', i) ensures ContentOk(g, s', i) {
      assert ContentOk(g, s, i);
    }
    if s'.phase.Sending? {
      assert Buffers(s');
    }
  }

  lemma Closed(g: Config, s: State)
    requires Base(g, s) && s.phase.Closing? && s.cur < |s.bufs|
    ensures Base(g, s.(bufs := s.bufs[s.cur := s.bufs[s.cur].(closed := true)], phase := Popping))
  {
    var s' := s.(bufs := s.bufs[s.cur := s.bufs[s.cur].(closed := true)], phase := Popping);
    ClosedCore(g, s, s');
  }

  lemma ClosedCore(g: Config, s: State, s': State)
    requires Base(g, s) && s.phase.Closing? && s.cur < |s.bufs|
    requires s' == s.(bufs := s.bufs[s.cur := s.bufs[s.cur].(closed := true)], phase := Popping)
    ensures Core(g, s')
  {
    assert forall i :: Alive(s', i) ==> Owner(s', i) == Owner(s, i) != s.cur;
    assert forall v: nat, i :: HeldBy(s', v, i) == HeldBy(s, v, i);
    forall i | Alive(s', i) ensures ContentOk(g, s', i) && (Complete(s', i) || Queued(s', i) || Held(s', i)) {
      assert Alive(s, i) && ContentOk(g, s, i) && Complete(s', i) == Complete(s, i);
      if Held(s, i) {
        var v: nat :| HeldBy(s, v, i);
        assert HeldBy(s', v, i);
      }
    }
    forall c | ChunkOk(g, s, c) ensures ChunkOk(g, s', c) {
      assert c.id >= s.mrPos ==> Alive(s', c.id);
    }
  }

  /** The buffer of the next chunk is there: it was issued before. */
  lemma Popped(g: Config, s: State)
    requires Base(g, s) && s.phase.Popping?
    ensures s.mrPos in s.bufMap
    ensures Base(g, s.(bufMap := (s.bufMap - {s.mrPos})[-1 := s.bufMap[s.mrPos]], cur := s.bufMap[s.mrPos],
      phase := Reading))
  {
    assert Alive(s, s.mrPos) && ContentOk(g, s, s.mrPos);
    var br := s.bufMap[s.mrPos];
    var s' := s.(bufMap := (s.bufMap - {s.mrPos})[-1 := br], cur := br, phase := Reading);
    PassedChunks(g, s, s');
    forall i | Alive(s', i) ensures ContentOk(g, s', i) {
      assert ContentOk(g, s, i);
    }
    assert Consumed(g, s') == Consumed(g, s);
  }

  /*** every step, every run ***/

  lemma InitKeeps(g: Config)
    requires Sane(g)
    ensures Inv(g, Init(g))
  {
    var s0 := State(0, g.start, g.workers, map[], [], [], Unlocked, [], Popping, 0, 0, []);
    assert Core(g, s0);
    AtLeastTwo(g.length, g.part);
    SendForm(g, s0, true, false, None);
    ChunkInRange(g, 0);
    var s := SendChunk(g, s0, true, false, None);
    var br :| Issued(g, s0, s, br, true);
    IssuedCore(g, s0, s, br, true);
    var t := s.(mu := Unlocked);
    SamePlaces(g, s, t);
  }

  lemma Refused(g: Config, s: State, w: nat)
    requires Base(g, s) && w < |s.workers| && s.workers[w].Trying? && Refuse(s, w, s.workers[w].c).Some?
    ensures Base(g, Refuse(s, w, s.workers[w].c).value)
  {
    var c := s.workers[w].c;
    var flips := s.concurrency > 0;
    var concurrency := if flips then -s.concurrency else s.concurrency;
    if c.id != 0 && (c.newConcurrency || flips) {
      HoldsOn(g, s, w, Requeueing(c), concurrency - 1);
      assert Refuse(s, w, c).value == SetWorker(s, w, Requeueing(c)).(concurrency := concurrency - 1);
    }
  }

  lemma LaunchKeeps(g: Config, s: State, w: nat, refused: bool)
    requires Base(g, s) && w < |s.workers| && s.workers[w].Opened? && s.mu.Unlocked?
    ensures var t := SendChunk(g, SetWorker(s, w, Launching(s.workers[w].c)), true, refused, Some(w));
      w < |t.workers| && Base(g, if t.mu.Locked? then t else SetWorker(t, w, Copying(s.workers[w].c, 0)))
  {
    var c := s.workers[w].c;
    var l := SetWorker(s, w, Launching(c));
    HoldsOn(g, s, w, Launching(c), s.concurrency);
    assert l == l.(concurrency := s.concurrency);
    Launched(g, l, refused, Some(w));
    SendForm(g, l, true, refused, Some(w));
    if SendChunk(g, l, true, refused, Some(w)) == l {
      HoldsOn(g, l, w, Copying(c, 0), l.concurrency);
      assert SetWorker(l, w, Copying(c, 0)) == SetWorker(l, w, Copying(c, 0)).(concurrency := l.concurrency);
    }
  }

  lemma WorkerStepKeeps(g: Config, s: State, e: Event)
    requires Base(g, s) && (e.Receive? || e.RequestOk? || e.RequestFails? || e.Launch? || e.Copy? || e.BodyEnds?
      || e.BodyBreaks? || e.Requeue?)
    requires WorkerStep(g, s, e).Some?
    ensures Base(g, WorkerStep(g, s, e).value)
  {
    var wk := s.workers[e.w];
    match e
    case Receive(w) => Received(g, s, w);
    case RequestOk(w) => HoldsOn(g, s, w, Opened(wk.c), s.concurrency);
    case RequestFails(w) => Refused(g, s, w);
    case Launch(w, refused) => LaunchKeeps(g, s, w, refused);
    case Copy(w, k) => Copied(g, s, w, k);
    case BodyEnds(w) =>
      HoldsOn(g, s, w, if wk.n == wk.c.size then Idle else Trying(Advance(wk.c, wk.n)), s.concurrency);
    case BodyBreaks(w) => HoldsOn(g, s, w, Trying(Advance(wk.c, wk.n)), s.concurrency);
    case Requeue(w) => Requeued(g, s, w, InChannel(s), s.queue[..InChannel(s)] + [wk.c] + s.queue[InChannel(s)..]);
  }

  lemma ReaderStepKeeps(g: Config, s: State, e: Event)
    requires Base(g, s) && (e.Read? || e.EndOfBuffer? || e.Deposit? || e.Send? || e.Close? || e.Pop?)
    requires ReaderStep(g, s, e).Some?
    ensures Base(g, ReaderStep(g, s, e).value)
  {
    match e
    case Read(k) => ReadOn(g, s, k);
    case EndOfBuffer => Ended(g, s);
    case Deposit => Deposited(g, s);
    case Send(refused) => Sent(g, s, refused);
    case Close => Closed(g, s);
    case Pop => Popped(g, s);
  }

  /** Who holds the mutex, across a step. */
  lemma ReaderMutex(g: Config, s: State, e: Event)
    requires Inv(g, s) && (e.Read? || e.EndOfBuffer? || e.Deposit? || e.Send? || e.Close? || e.Pop?)
    requires ReaderStep(g, s, e).Some?
    ensures MutexOk(ReaderStep(g, s, e).value)
  {
    if e.Send? {
      PhaseCore(g, s, s.(phase := Delivering));
      SendForm(g, s.(phase := Delivering), false, e.refused, None);
    }
  }

  lemma LaunchMutex(g: Config, s: State, w: nat, refused: bool)
    requires Inv(g, s) && WorkerStep(g, s, Launch(w, refused)).Some?
    ensures MutexOk(WorkerStep(g, s, Launch(w, refused)).value)
  {
    var c := s.workers[w].c;
    var l := SetWorker(s, w, Launching(c));
    HoldsOn(g, s, w, Launching(c), s.concurrency);
    assert l == l.(concurrency := s.concurrency);
    SendForm(g, l, true, refused, Some(w));
  }

  lemma WorkerMutex(g: Config, s: State, e: Event)
    requires Inv(g, s) && (e.Receive? || e.RequestOk? || e.RequestFails? || e.Launch? || e.Copy? || e.BodyEnds?
      || e.BodyBreaks? || e.Requeue?)
    requires WorkerStep(g, s, e).Some?
    ensures MutexOk(WorkerStep(g, s, e).value)
  {
    if e.Launch? {
      LaunchMutex(g, s, e.w, e.refused);
    }
  }

  lemma NextKeeps(g: Config, s: State, e: Event)
    requires Inv(g, s) && Next(g, s, e).Some?
    ensures Inv(g, Next(g, s, e).value)
  {
    if e.Deliver? {
      Delivered(g, s);
    } else if e.Read? || e.EndOfBuffer? || e.Deposit? || e.Send? || e.Close? || e.Pop? {
      ReaderStepKeeps(g, s, e);
      ReaderMutex(g, s, e);
    } else {
      WorkerStepKeeps(g, s, e);
      WorkerMutex(g, s, e);
    }
  }

  lemma {:induction false} RunKeeps(g: Config, es: seq<Event>)
    requires Sane(g) && Run(g, es).Some?
    ensures Inv(g, Run(g, es).value)
  {
    if es == [] {
      InitKeeps(g);
    } else {
      RunKeeps(g, es[..|es| - 1]);
      NextKeeps(g, Run(g, es[..|es| - 1]).value, es[|es| - 1]);
    }
  }

  /** Whatever the workers do, the reader gets the bytes of the range in order, and when
      it is told that the range ends it got all of them; it never runs out of buffers. */
  lemma ReaderGetsTheRange(g: Config, es: seq<Event>)
    requires Sane(g) && Run(g, es).Some?
    ensures var s := Run(g, es).value;
      && |s.out| <= g.length && s.out == g.remote[g.start..g.start + |s.out|]
      && (s.phase.Finished? ==> s.out == g.remote[g.start..g.start + g.length])
      && !s.phase.Lost?
  {
    RunKeeps(g, es);
    var s := Run(g, es).value;
    Tiles(g.length, g.part, s.mrPos);
    if s.phase.Reading? {
      assert Alive(s, s.mrPos) && ContentOk(g, s, s.mrPos);
      ChunkInRange(g, s.mrPos);
    }
  }

  /** No more blocks are ever taken than workers are allowed. */
  lemma BuffersBounded(g: Config, es: seq<Event>)
    requires Sane(g) && Run(g, es).Some?
    ensures |Run(g, es).value.bufs| <= |Run(g, es).value.workers| <= g.workers
  {
    RunKeeps(g, es);
  }

  /** When a buffer is reset for the next chunk nobody can be copying into it or out of it,
      nor start to: it was handed on by the reader, which is between two buffers, and no
      chunk with bytes left goes to it. */
  lemma ResetsUndisturbed(g: Config, es: seq<Event>, s: State)
    requires Sane(g) && Run(g, es) == Some(s) && s.nextChunk in s.bufMap && s.nextChunk < Parts(g)
    ensures s.phase.Sending? && s.bufMap[s.nextChunk] < |s.bufs|
    ensures forall k :: 0 <= k < |s.queue| && s.queue[k].size > 0 ==> s.queue[k].buf != s.bufMap[s.nextChunk]
    ensures forall w :: 0 <= w < |s.workers| && Busy(s.workers[w]) && Left(s.workers[w]).size > 0 ==>
      Left(s.workers[w]).buf != s.bufMap[s.nextChunk]
  {
    RunKeeps(g, es);
    forall k | 0 <= k < |s.queue| && s.queue[k].size > 0 ensures s.queue[k].buf != s.bufMap[s.nextChunk] {
      assert ChunkOk(g, s, s.queue[k]);
    }
    forall w | 0 <= w < |s.workers| && Busy(s.workers[w]) && Left(s.workers[w]).size > 0
      ensures Left(s.workers[w]).buf != s.bufMap[s.nextChunk] {
      assert ChunkOk(g, s, Left(s.workers[w]));
    }
  }
}

/** The parallel range downloader as a transition system: workers fetch chunks of one
    remote range into recycled buffers, a single reader drains the buffers in order.
    A section the program runs under its mutex is one step, except that the section that
    issues a chunk ends with a second step, in which the chunk goes into the channel: until
    there is room for it the mutex is held.  Between two steps any worker or the reader may
    move.  Requests and bodies may fail at any point; the reply to a range is a prefix of
    that range.  Nothing is cancelled. */
module Downloader {
  import opened Wrappers
  import opened ChunkSizes

  type Byte = bv8

  /** The remote bytes, the range asked for (start, length), the part size, and how many
      workers are allowed. */
  datatype Config = Config(remote: seq<Byte>, start: nat, length: nat, part: nat, workers: nat)

  /** The range is inside the file and needs several parts; one part is fetched without
      any of this. */
  predicate Sane(g: Config) {
    && 1 <= g.part < g.length && g.start + g.length <= |g.remote|
    && 1 <= g.workers <= PartCount(g.length, g.part)
  }

  function Parts(g: Config): nat
    requires g.part >= 1
  {
    PartCount(g.length, g.part)
  }

  function At(g: Config, id: nat): int
    requires g.part >= 1
  {
    g.start + Offset(g.length, g.part, id)
  }

  /** What is still to be fetched for one chunk, and the buffer it goes to. */
  datatype Chunk = Chunk(id: nat, start: int, size: int, buf: nat, newConcurrency: bool)

  function Advance(c: Chunk, n: nat): Chunk {
    c.(start := c.start + n, size := c.size - n)
  }

  /** A pipe buffer: `data` was written since the last reset, `read` of it was read. */
  datatype Buffer = Buffer(limit: int, read: nat, data: seq<Byte>, closed: bool)

  datatype Worker =
    | Idle
    | Trying(c: Chunk)
    | Opened(c: Chunk)
    | Launching(c: Chunk)
    | Copying(c: Chunk, n: nat)
    | Requeueing(c: Chunk)
    | Gone

  /** Where the reader is: reading its buffer, between the sections that hand its
      finished buffer on, at the end, or without a buffer before the end. */
  datatype Phase = Reading | Depositing | Sending | Delivering | Closing | Popping | Finished | Lost

  /** The mutex, held to put a chunk into the channel: by a worker, or by the reader. */
  datatype Mutex = Unlocked | Locked(sender: Option<nat>)

  /** `queue` holds the chunks in the channel and, while the mutex is held, behind them the
      one that is to be put there. */
  datatype State = State(
    nextChunk: nat, pos: int, concurrency: int,
    bufMap: map<int, nat>, bufs: seq<Buffer>,
    queue: seq<Chunk>, mu: Mutex, workers: seq<Worker>,
    phase: Phase, mrPos: nat, cur: nat, out: seq<Byte>)

  /** One move and the choices made outside the program in it. */
  datatype Event =
    | Receive(w: nat)
    | RequestOk(w: nat)
    | RequestFails(w: nat)
    | Launch(w: nat, refused: bool)
    | Deliver
    | Copy(w: nat, k: nat)
    | BodyEnds(w: nat)
    | BodyBreaks(w: nat)
    | Requeue(w: nat)
    | Read(k: nat)
    | EndOfBuffer
    | Deposit
    | Send(refused: bool)
    | Close
    | Pop

  /*** sendChunkTask ***/

  /** The section that issues the next chunk, up to the channel.  `refused` says that a
      resource it asks for (a connection permit, a block) is not given. */
  function SendChunk(g: Config, s: State, newConcurrency: bool, refused: bool, sender: Option<nat>): State
    requires g.part >= 1
  {
    if s.pos >= g.start + g.length then
      s
    else if newConcurrency && s.concurrency <= 0 then
      s
    else if refused && ((newConcurrency && s.nextChunk > 0) || s.nextChunk !in s.bufMap) then
      s
    else
      var br := if s.nextChunk in s.bufMap then s.bufMap[s.nextChunk] else |s.bufs|;
      var bufs := if s.nextChunk in s.bufMap then s.bufs else s.bufs + [Buffer(g.part, 0, [], false)];
      var bufMap := s.bufMap[s.nextChunk as int := br];
      var size := ChunkSize(g.length, g.part, s.nextChunk);
      if br >= |bufs| || bufs[br].closed || size > g.part then
        s.(bufs := bufs, bufMap := bufMap)
      else
        s.(
          bufMap := bufMap,
          bufs := bufs[br := Buffer(size, 0, [], false)],
          workers := if newConcurrency then s.workers + [Idle] else s.workers,
          concurrency := if newConcurrency then s.concurrency - 1 else s.concurrency,
          mu := Locked(sender),
          queue := s.queue + [Chunk(s.nextChunk, s.pos, size, br, newConcurrency)],
          pos := s.pos + size,
          nextChunk := s.nextChunk + 1)
  }

  /** How many chunks are in the channel. */
  function InChannel(s: State): int {
    |s.queue| - if s.mu.Locked? then 1 else 0
  }

  /** The chunk goes into the channel, when there is room, and its sender goes on. */
  function DeliverChunk(g: Config, s: State): Option<State> {
    if s.mu.Unlocked? || InChannel(s) >= g.workers then
      None
    else
      var t := s.(mu := Unlocked);
      match s.mu.sender
      case None => Some(if s.phase.Delivering? then t.(phase := Popping) else t)
      case Some(w) =>
        Some(if w < |s.workers| && s.workers[w].Launching? then SetWorker(t, w, Copying(s.workers[w].c, 0)) else t)
  }

  /** The state in which the reader is returned: one chunk issued, one worker launched. */
  function Init(g: Config): State
    requires g.part >= 1
  {
    var idle := State(0, g.start, g.workers, map[], [], [], Unlocked, [], Popping, 0, 0, []);
    var s := SendChunk(g, idle, true, false, None);
    match DeliverChunk(g, s) case None => s case Some(t) => t
  }

  /*** the workers ***/

  function SetWorker(s: State, w: nat, wk: Worker): State
    requires w < |s.workers|
  {
    s.(workers := s.workers[w := wk])
  }

  /** A request that gets an error status.  The first chunk is retried; for a later one,
      under the mutex, this worker gives its chunk back and quits, if the chunk launched a
      worker or there are launches left to give up. */
  function Refuse(s: State, w: nat, c: Chunk): Option<State>
    requires w < |s.workers|
  {
    if c.id == 0 then
      Some(s)
    else if s.mu.Locked? then
      None
    else
      var flips := s.concurrency > 0;
      var concurrency := if flips then -s.concurrency else s.concurrency;
      if c.newConcurrency || flips then
        Some(SetWorker(s, w, Requeueing(c)).(concurrency := concurrency - 1))
      else
        Some(s)
  }

  /** Writes k more bytes of the reply into the chunk's buffer, as far as they fit. */
  function Store(g: Config, s: State, w: nat, c: Chunk, n: nat, k: nat): State
    requires w < |s.workers| && c.buf < |s.bufs| && 0 <= c.start + n && c.start + n + k <= |g.remote|
  {
    var b := s.bufs[c.buf];
    var fits :=
      if b.closed || b.limit - |b.data| <= 0 then 0
      else if k <= b.limit - |b.data| then k
      else b.limit - |b.data|;
    var s' := s.(bufs := s.bufs[c.buf := b.(data := b.data + g.remote[c.start + n..c.start + n + fits])]);
    if fits < k then
      SetWorker(s', w, Trying(Advance(c, n + fits)))
    else
      SetWorker(s', w, Copying(c, n + fits))
  }

  function WorkerStep(g: Config, s: State, e: Event): Option<State>
    requires g.part >= 1
    requires e.Receive? || e.RequestOk? || e.RequestFails? || e.Launch? || e.Copy? || e.BodyEnds? || e.BodyBreaks?
      || e.Requeue?
  {
    if e.w >= |s.workers| then
      None
    else
      var wk := s.workers[e.w];
      match e
      case Receive(w) =>
        if wk.Idle? && InChannel(s) > 0 then
          Some(SetWorker(s, w, Trying(s.queue[0])).(queue := s.queue[1..]))
        else None
      case RequestOk(w) =>
        if wk.Trying? then Some(SetWorker(s, w, Opened(wk.c))) else None
      case RequestFails(w) =>
        if wk.Trying? then Refuse(s, w, wk.c) else None
      case Launch(w, refused) =>
        if wk.Opened? && s.mu.Unlocked? then
          var t := SendChunk(g, SetWorker(s, w, Launching(wk.c)), true, refused, Some(w));
          Some(if t.mu.Locked? || w >= |t.workers| then t else SetWorker(t, w, Copying(wk.c, 0)))
        else None
      case Copy(w, k) =>
        if wk.Copying? && 0 < k <= wk.c.size - wk.n && wk.c.buf < |s.bufs| && 0 <= wk.c.start + wk.n
          && wk.c.start + wk.n + k <= |g.remote| then
          Some(Store(g, s, w, wk.c, wk.n, k))
        else None
      case BodyEnds(w) =>
        if wk.Copying? then
          Some(SetWorker(s, w, if wk.n == wk.c.size then Idle else Trying(Advance(wk.c, wk.n))))
        else None
      case BodyBreaks(w) =>
        if wk.Copying? then Some(SetWorker(s, w, Trying(Advance(wk.c, wk.n)))) else None
      case Requeue(w) =>
        if wk.Requeueing? && 0 <= InChannel(s) < g.workers then
          Some(SetWorker(s, w, Gone).(queue := s.queue[..InChannel(s)] + [wk.c] + s.queue[InChannel(s)..]))
        else None
  }

  /*** the reader ***/

  function ReaderStep(g: Config, s: State, e: Event): Option<State>
    requires g.part >= 1
    requires e.Read? || e.EndOfBuffer? || e.Deposit? || e.Send? || e.Close? || e.Pop?
  {
    match e
    case Read(k) =>
      if s.phase.Reading? && s.cur < |s.bufs| && !s.bufs[s.cur].closed && s.bufs[s.cur].read < s.bufs[s.cur].limit
        && 0 < k <= |s.bufs[s.cur].data| - s.bufs[s.cur].read then
        var b := s.bufs[s.cur];
        Some(s.(bufs := s.bufs[s.cur := b.(read := b.read + k)], out := s.out + b.data[b.read..b.read + k]))
      else None
    case EndOfBuffer =>
      if s.phase.Reading? && s.cur < |s.bufs| && s.bufs[s.cur].read >= s.bufs[s.cur].limit then
        Some(s.(mrPos := s.mrPos + 1, phase := if s.mrPos + 1 >= Parts(g) then Finished else Depositing))
      else None
    case Deposit =>
      if !s.phase.Depositing? || s.mu.Locked? then None
      else if s.nextChunk in s.bufMap then Some(s.(phase := Closing))
      else Some(s.(bufMap := s.bufMap[s.nextChunk as int := s.cur], phase := Sending))
    case Send(refused) =>
      if s.phase.Sending? && s.mu.Unlocked? then
        var t := SendChunk(g, s.(phase := Delivering), false, refused, None);
        Some(if t.mu.Locked? then t else t.(phase := Popping))
      else None
    case Close =>
      if s.phase.Closing? && s.cur < |s.bufs| then
        Some(s.(bufs := s.bufs[s.cur := s.bufs[s.cur].(closed := true)], phase := Popping))
      else None
    case Pop =>
      if !s.phase.Popping? || s.mu.Locked? then None
      else if s.mrPos in s.bufMap then
        var br := s.bufMap[s.mrPos];
        Some(s.(bufMap := (s.bufMap - {s.mrPos})[-1 := br], cur := br, phase := Reading))
      else Some(s.(phase := Lost))
  }

  function Next(g: Config, s: State, e: Event): Option<State>
    requires g.part >= 1
  {
    if e.Deliver? then
      DeliverChunk(g, s)
    else if e.Read? || e.EndOfBuffer? || e.Deposit? || e.Send? || e.Close? || e.Pop? then
      ReaderStep(g, s, e)
    else
      WorkerStep(g, s, e)
  }

  /** The state after a sequence of moves, if each was possible when it was made. */
  function Run(g: Config, es: seq<Event>): Option<State>
    requires g.part >= 1
  {
    if es == [] then Some(Init(g))
    else
      var s := Run(g, es[..|es| - 1]);
      if s.None? then None else Next(g, s.value, es[|es| - 1])
  }
}

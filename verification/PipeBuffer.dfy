/** The pipe buffer: one reader and one writer share a block under a mutex, and a reader
    that finds nothing waits for a signal.  A section under the mutex is one step; the
    bytes are copied outside it, in steps of their own.  Close may come at any time; a reset
    first waits until no bytes are being copied and takes the mutex only then. */
module PipeBuffer {
  import opened Wrappers

  type Byte = bv8

  datatype Error = NoError | EOF | ClosedPipe | ShortWrite | UnexpectedEOF

  /** Where a call of Read is: before its locked check, waiting for the signal, copying
      m bytes at offset off, and with the bytes in hand. */
  datatype Reader =
    | NotReading
    | Checking(n: nat)
    | Waiting(n: nat)
    | Fetching(n: nat, off: nat, m: nat)
    | Fetched(n: nat, bytes: seq<Byte>)

  datatype Writer =
    | NotWriting
    | Storing(p: seq<Byte>, off: nat, m: nat)
    | Stored(p: seq<Byte>, off: nat, m: nat)

  /** `signal` is the token in the channel of capacity one.  `written` and `got` are what
      was accepted and delivered since the last reset; readRet and writeRet are the last
      results; `resetting` is the limit of a reset that has waited and not yet locked. */
  datatype State = State(
    limit: nat, offR: nat, offW: nat, block: seq<Byte>, closed: bool,
    pending: bool, signal: bool, signalClosed: bool, crashed: bool,
    reader: Reader, writer: Writer, resetting: Option<nat>,
    written: seq<Byte>, got: seq<Byte>,
    readRet: (nat, Error), writeRet: (nat, Error))

  datatype Event =
    | ReadCall(n: nat)
    | ReadCheck
    | ReadWake
    | ReadFetch
    | ReadDone
    | WriteCall(p: seq<Byte>)
    | WriteStore
    | WriteDone
    | ResetWait(limit: nat)
    | ResetSet
    | Close

  function Min(a: int, b: int): int {
    if a <= b then a else b
  }

  predicate Init(s: State) {
    && s.limit == |s.block| && s.offR == s.offW == 0 && s.written == s.got == []
    && !s.closed && !s.pending && !s.signal && !s.signalClosed && !s.crashed
    && s.reader.NotReading? && s.writer.NotWriting? && s.resetting.None?
    && s.readRet == (0, NoError) && s.writeRet == (0, NoError)
  }

  function ReaderNext(s: State, e: Event): Option<State>
    requires e.ReadCall? || e.ReadCheck? || e.ReadWake? || e.ReadFetch? || e.ReadDone?
  {
    match e
    case ReadCall(n) =>
      if !s.reader.NotReading? then None
      else if n == 0 then Some(s.(readRet := (0, NoError)))
      else if s.offR >= s.limit then Some(s.(readRet := (0, EOF)))
      else Some(s.(reader := Checking(n)))
    case ReadCheck =>
      if !s.reader.Checking? then None
      else if s.closed then Some(s.(reader := NotReading, readRet := (0, ClosedPipe)))
      else if s.offW == s.offR then Some(s.(pending := true, reader := Waiting(s.reader.n)))
      else if s.offW < s.offR then Some(s.(reader := NotReading, readRet := (0, UnexpectedEOF)))
      else Some(s.(reader := Fetching(s.reader.n, s.offR, Min(s.reader.n, s.offW - s.offR))))
    case ReadWake =>
      if !s.reader.Waiting? then None
      else if s.signal then Some(s.(signal := false, reader := Checking(s.reader.n)))
      else if s.signalClosed then Some(s.(reader := NotReading, readRet := (0, ClosedPipe)))
      else None
    case ReadFetch =>
      if s.reader.Fetching? && s.reader.off + s.reader.m <= |s.block| then
        Some(s.(reader := Fetched(s.reader.n, s.block[s.reader.off..s.reader.off + s.reader.m])))
      else None
    case ReadDone =>
      if !s.reader.Fetched? then None
      else
        var m := |s.reader.bytes|;
        Some(s.(offR := s.offR + m, got := s.got + s.reader.bytes, reader := NotReading,
                readRet := (m, if m < s.reader.n && s.offR + m >= s.limit then EOF else NoError)))
  }

  function WriterNext(s: State, e: Event): Option<State>
    requires e.WriteCall? || e.WriteStore? || e.WriteDone?
  {
    match e
    case WriteCall(p) =>
      if !s.writer.NotWriting? then None
      else if p == [] then Some(s.(writeRet := (0, NoError)))
      else if s.closed then Some(s.(writeRet := (0, ClosedPipe)))
      else if s.limit <= s.offW then Some(s.(writeRet := (0, ShortWrite)))
      else Some(s.(writer := Storing(p, s.offW, Min(s.limit - s.offW, |p|))))
    case WriteStore =>
      if s.writer.Storing? && s.writer.off + s.writer.m <= |s.block| && s.writer.m <= |s.writer.p| then
        var off, m := s.writer.off, s.writer.m;
        Some(s.(block := s.block[..off] + s.writer.p[..m] + s.block[off + m..], writer := Stored(s.writer.p, off, m)))
      else None
    case WriteDone =>
      if !s.writer.Stored? then None
      else
        var m, p := s.writer.m, s.writer.p;
        Some(s.(offW := s.offW + m, written := s.written + p[..Min(m, |p|)], writer := NotWriting,
                pending := false, signal := s.signal || s.pending,
                crashed := s.crashed || (s.pending && s.signalClosed),
                writeRet := (m, if m < |p| then ShortWrite else NoError)))
  }

  /** Bytes are being copied out of the block, or into it. */
  predicate CopiesOut(s: State) {
    s.reader.Fetching? || s.reader.Fetched?
  }

  predicate CopiesIn(s: State) {
    s.writer.Storing? || s.writer.Stored?
  }

  /** A reader waiting for the signal does not hold a reset up.  Sending on the closed
      channel would crash the program. */
  function Next(s: State, e: Event): Option<State> {
    match e
    case ResetWait(limit) =>
      if CopiesOut(s) || CopiesIn(s) || s.resetting.Some? then None else Some(s.(resetting := Some(limit)))
    case ResetSet =>
      if s.resetting.None? then None
      else if s.closed || s.resetting.value > |s.block| then Some(s.(resetting := None))
      else Some(s.(resetting := None, limit := s.resetting.value, offR := 0, offW := 0, written := [], got := []))
    case Close =>
      if s.closed then Some(s) else Some(s.(closed := true, pending := false, signalClosed := true))
    case WriteCall(_) => WriterNext(s, e)
    case WriteStore => WriterNext(s, e)
    case WriteDone => WriterNext(s, e)
    case _ => ReaderNext(s, e)
  }

  function Run(s: State, es: seq<Event>): Option<State> {
    if es == [] then Some(s)
    else
      var t := Run(s, es[..|es| - 1]);
      if t.None? then None else Next(t.value, es[|es| - 1])
  }

  /*** what every run keeps ***/

  predicate ReaderOk(s: State)
    requires s.offR <= s.offW <= s.limit <= |s.block|
  {
    match s.reader
    case NotReading => true
    case Checking(n) => n > 0
    case Waiting(n) => n > 0
    case Fetching(n, off, m) => off == s.offR && 0 < m <= n && off + m <= s.offW
    case Fetched(n, bytes) =>
      0 < |bytes| <= n && s.offR + |bytes| <= s.offW && bytes == s.block[s.offR..s.offR + |bytes|]
  }

  predicate WriterOk(s: State)
    requires s.limit <= |s.block|
  {
    match s.writer
    case NotWriting => true
    case Storing(p, off, m) => off == s.offW && 0 < m <= |p| && off + m <= s.limit
    case Stored(p, off, m) => off == s.offW && 0 < m <= |p| && off + m <= s.limit && s.block[off..off + m] == p[..m]
  }

  /** The offsets stay in order, the block holds what was written, and what was read is
      the beginning of it. */
  predicate Bytes(s: State) {
    && s.offR <= s.offW <= s.limit <= |s.block|
    && s.written == s.block[..s.offW] && s.got == s.block[..s.offR]
    && ReaderOk(s) && WriterOk(s)
  }

  /** A waiting reader has nothing to wait for, or will be woken. */
  predicate Wakes(s: State) {
    && (s.reader.Waiting? ==> s.signal || s.signalClosed || (s.pending && s.offR == s.offW))
    && (s.signalClosed <==> s.closed) && (s.closed ==> !s.pending) && !s.crashed
  }

  lemma ReadCallKeeps(s: State, n: nat)
    requires Bytes(s) && Wakes(s) && ReaderNext(s, ReadCall(n)).Some?
    ensures Bytes(ReaderNext(s, ReadCall(n)).value) && Wakes(ReaderNext(s, ReadCall(n)).value)
  {
    var t := ReaderNext(s, ReadCall(n)).value;
    assert t == s.(readRet := t.readRet) || t == s.(reader := Checking(n));
  }

  lemma ReadCheckKeeps(s: State)
    requires Bytes(s) && Wakes(s) && ReaderNext(s, ReadCheck).Some?
    ensures Bytes(ReaderNext(s, ReadCheck).value) && Wakes(ReaderNext(s, ReadCheck).value)
  {
  }

  lemma ReadWakeKeeps(s: State)
    requires Bytes(s) && Wakes(s) && ReaderNext(s, ReadWake).Some?
    ensures Bytes(ReaderNext(s, ReadWake).value) && Wakes(ReaderNext(s, ReadWake).value)
  {
  }

  lemma ReadFetchKeeps(s: State)
    requires Bytes(s) && Wakes(s) && ReaderNext(s, ReadFetch).Some?
    ensures Bytes(ReaderNext(s, ReadFetch).value) && Wakes(ReaderNext(s, ReadFetch).value)
  {
  }

  lemma DeliverKeeps(s: State)
    requires Bytes(s) && Wakes(s) && s.reader.Fetched?
    ensures Bytes(ReaderNext(s, ReadDone).value) && Wakes(ReaderNext(s, ReadDone).value)
  {
    var k := s.offR + |s.reader.bytes|;
    assert s.block[..s.offR] + s.block[s.offR..k] == s.block[..k];
  }

  lemma Overwrite(block: seq<Byte>, off: nat, m: nat, p: seq<Byte>, block': seq<Byte>)
    requires off + m <= |block| && m <= |p| && block' == block[..off] + p[..m] + block[off + m..]
    ensures |block'| == |block| && block'[off..off + m] == p[..m]
    ensures forall i, j :: 0 <= i <= j <= off ==> block'[i..j] == block[i..j]
  {
    forall i, j | 0 <= i <= j <= off ensures block'[i..j] == block[i..j] {
      assert forall x :: 0 <= x < off ==> block'[x] == block[x];
    }
  }

  lemma StoreKeeps(s: State)
    requires Bytes(s) && Wakes(s) && s.writer.Storing?
    ensures WriterNext(s, WriteStore).Some?
    ensures Bytes(WriterNext(s, WriteStore).value) && Wakes(WriterNext(s, WriteStore).value)
  {
    var t := WriterNext(s, WriteStore).value;
    Overwrite(s.block, s.offW, s.writer.m, s.writer.p, t.block);
    assert t.block[..s.offW] == t.block[0..s.offW] == s.block[0..s.offW];
    assert t.block[..s.offR] == t.block[0..s.offR] == s.block[0..s.offR];
  }

  lemma AcceptKeeps(s: State)
    requires Bytes(s) && Wakes(s) && s.writer.Stored?
    ensures Bytes(WriterNext(s, WriteDone).value) && Wakes(WriterNext(s, WriteDone).value)
  {
    var k := s.offW + s.writer.m;
    assert s.block[..s.offW] + s.block[s.offW..k] == s.block[..k];
  }

  lemma WriteCallKeeps(s: State, p: seq<Byte>)
    requires Bytes(s) && Wakes(s) && WriterNext(s, WriteCall(p)).Some?
    ensures Bytes(WriterNext(s, WriteCall(p)).value) && Wakes(WriterNext(s, WriteCall(p)).value)
  {
  }

  /** What the block must be like when a reset takes effect: nothing is being read, and what
      is being written goes to the beginning and fits. */
  predicate Calm(s: State) {
    s.resetting.Some? && !s.closed && s.resetting.value <= |s.block| ==>
      && !CopiesOut(s)
      && (CopiesIn(s) ==> s.writer.off == 0 && s.writer.m <= s.resetting.value)
  }

  /** A reset keeps the bytes in order exactly when it takes effect on a calm buffer. */
  lemma ResetKeepsIff(s: State)
    requires Bytes(s) && Wakes(s) && s.resetting.Some?
    ensures Wakes(Next(s, ResetSet).value)
    ensures Bytes(Next(s, ResetSet).value) <==> Calm(s)
  {
  }

  lemma CloseKeeps(s: State)
    requires Bytes(s) && Wakes(s)
    ensures Bytes(Next(s, Close).value) && Wakes(Next(s, Close).value)
  {
  }

  lemma StepKeeps(s: State, e: Event)
    requires Bytes(s) && Wakes(s) && Next(s, e).Some? && (e.ResetSet? ==> Calm(s))
    ensures Bytes(Next(s, e).value) && Wakes(Next(s, e).value)
  {
    match e
    case ReadCall(n) => ReadCallKeeps(s, n);
    case ReadCheck => ReadCheckKeeps(s);
    case ReadWake => ReadWakeKeeps(s);
    case ReadFetch => ReadFetchKeeps(s);
    case ReadDone => DeliverKeeps(s);
    case WriteCall(p) => WriteCallKeeps(s, p);
    case WriteStore => StoreKeeps(s);
    case WriteDone => AcceptKeeps(s);
    case ResetWait(_) =>
    case ResetSet => ResetKeepsIff(s);
    case Close => CloseKeeps(s);
  }

  /** Every reset of the run takes effect on a calm buffer. */
  predicate Undisturbed(s: State, es: seq<Event>) {
    es == [] ||
    (Undisturbed(s, es[..|es| - 1])
     && (es[|es| - 1].ResetSet? && Run(s, es[..|es| - 1]).Some? ==> Calm(Run(s, es[..|es| - 1]).value)))
  }

  lemma {:induction false} RunKeeps(s: State, es: seq<Event>)
    requires Init(s) && Run(s, es).Some? && Undisturbed(s, es)
    ensures Bytes(Run(s, es).value) && Wakes(Run(s, es).value)
  {
    if es != [] {
      RunKeeps(s, es[..|es| - 1]);
      StepKeeps(Run(s, es[..|es| - 1]).value, es[|es| - 1]);
    }
  }

  /** At every moment of the run, what is in the block is what was written and not read. */
  predicate AlwaysInOrder(s: State, es: seq<Event>)
    requires Run(s, es).Some?
  {
    Bytes(Run(s, es).value) && (es != [] ==> AlwaysInOrder(s, es[..|es| - 1]))
  }

  /** The bytes stay in order throughout a run exactly if every reset of the run takes effect
      on a calm buffer. */
  lemma {:induction false} InOrderIffUndisturbed(s: State, es: seq<Event>)
    requires Init(s) && Run(s, es).Some?
    ensures AlwaysInOrder(s, es) <==> Undisturbed(s, es)
  {
    if es != [] {
      InOrderIffUndisturbed(s, es[..|es| - 1]);
      if Undisturbed(s, es[..|es| - 1]) {
        RunKeeps(s, es[..|es| - 1]);
        if Undisturbed(s, es) {
          RunKeeps(s, es);
        } else {
          ResetKeepsIff(Run(s, es[..|es| - 1]).value);
        }
      }
    }
  }

  /** A bounded first-in first-out buffer: what was read is a prefix of what was written,
      never more than the limit, and the offsets count both. */
  lemma FirstInFirstOut(s: State, es: seq<Event>)
    requires Init(s) && Run(s, es).Some? && Undisturbed(s, es)
    ensures var t := Run(s, es).value;
      && t.got <= t.written && |t.got| == t.offR && |t.written| == t.offW
      && t.offR <= t.offW <= t.limit <= |s.block|
  {
    RunKeeps(s, es);
    BlockSize(s, es);
    var t := Run(s, es).value;
    assert t.got == t.written[..t.offR];
  }

  lemma {:induction false} BlockSize(s: State, es: seq<Event>)
    requires Init(s) && Run(s, es).Some?
    ensures |Run(s, es).value.block| == |s.block|
  {
    if es != [] {
      BlockSize(s, es[..|es| - 1]);
      SameSize(Run(s, es[..|es| - 1]).value, es[|es| - 1]);
    }
  }

  lemma SameSize(s: State, e: Event)
    requires Next(s, e).Some?
    ensures |Next(s, e).value.block| == |s.block|
  {
  }

  /** No wakeup is lost: a reader that waits with bytes to read, or on a closed pipe, can
      go on at once; and no write signals a closed channel. */
  lemma NoLostWakeup(s: State, es: seq<Event>)
    requires Init(s) && Run(s, es).Some? && Undisturbed(s, es)
    ensures var t := Run(s, es).value;
      && (t.reader.Waiting? && (t.offR < t.offW || t.closed) ==> Next(t, ReadWake).Some?)
      && !t.crashed
  {
    RunKeeps(s, es);
  }

  /** A read that ends by delivering gives the next bytes that were written, at least
      one, and reports the end exactly when it got fewer than asked and reached the
      limit. */
  lemma ReadDelivers(s: State, es: seq<Event>)
    requires Init(s) && Run(s, es).Some? && Undisturbed(s, es) && Run(s, es).value.reader.Fetched?
    ensures var t := Run(s, es).value; var t' := Next(t, ReadDone).value; var (m, err) := t'.readRet;
      && 0 < m <= t.reader.n && t.offR + m <= |t.written|
      && t'.got == t.got + t.written[t.offR..t.offR + m]
      && (err.EOF? <==> m < t.reader.n && t'.offR == t'.limit)
  {
    RunKeeps(s, es);
    Delivered(Run(s, es).value);
  }

  lemma Delivered(t: State)
    requires Bytes(t) && t.reader.Fetched?
    ensures var t' := Next(t, ReadDone).value; var (m, err) := t'.readRet;
      && 0 < m <= t.reader.n && t.offR + m <= |t.written|
      && t'.got == t.got + t.written[t.offR..t.offR + m]
      && (err.EOF? <==> m < t.reader.n && t'.offR == t'.limit)
  {
    var k := t.offR + |t.reader.bytes|;
    assert t.written[t.offR..k] == t.block[t.offR..k];
  }

  /** A read that ends without delivering found the pipe closed. */
  lemma ReadGivesUp(s: State, es: seq<Event>, e: Event)
    requires Init(s) && Run(s, es).Some? && Undisturbed(s, es) && (e.ReadCheck? || e.ReadWake?)
    requires Next(Run(s, es).value, e).Some? && Next(Run(s, es).value, e).value.reader.NotReading?
    ensures Run(s, es).value.closed && Next(Run(s, es).value, e).value.readRet == (0, ClosedPipe)
  {
    RunKeeps(s, es);
  }

  /** A read is answered at once exactly if it asks for nothing or all bytes up to the limit
      were delivered, and then it says which. */
  lemma ReadAtOnce(s: State, es: seq<Event>, n: nat)
    requires Init(s) && Run(s, es).Some? && Undisturbed(s, es) && Run(s, es).value.reader.NotReading?
    ensures Next(Run(s, es).value, ReadCall(n)).Some?
    ensures var t := Run(s, es).value; var t' := Next(t, ReadCall(n)).value;
      if n == 0 then t' == t.(readRet := (0, NoError))
      else if |t.got| == t.limit then t' == t.(readRet := (0, EOF))
      else t'.reader.Checking? && t'.got == t.got
  {
    FirstInFirstOut(s, es);
  }

  /** Under the mutex it finds the pipe closed; or nothing that was written and not delivered,
      and waits; or takes as much of that as it asked for. */
  lemma ReadFinds(s: State, es: seq<Event>)
    requires Init(s) && Run(s, es).Some? && Undisturbed(s, es) && Run(s, es).value.reader.Checking?
    ensures Next(Run(s, es).value, ReadCheck).Some?
    ensures var t := Run(s, es).value; var t' := Next(t, ReadCheck).value;
      if t.closed then t'.reader.NotReading? && t'.readRet == (0, ClosedPipe)
      else if t.got == t.written then t'.reader.Waiting?
      else t'.reader.Fetching? && t'.reader.m == Min(t.reader.n, |t.written| - |t.got|)
  {
    FirstInFirstOut(s, es);
    var t := Run(s, es).value;
    assert |t.got| == |t.written| ==> t.got == t.written[..|t.got|] == t.written;
  }

  /** A write is answered at once exactly if it brings nothing, the pipe is closed, or the limit
      was written; else it takes as much as the limit leaves room for. */
  lemma WriteAtOnce(s: State, es: seq<Event>, p: seq<Byte>)
    requires Init(s) && Run(s, es).Some? && Undisturbed(s, es) && Run(s, es).value.writer.NotWriting?
    ensures Next(Run(s, es).value, WriteCall(p)).Some?
    ensures var t := Run(s, es).value; var t' := Next(t, WriteCall(p)).value;
      if p == [] then t' == t.(writeRet := (0, NoError))
      else if t.closed then t' == t.(writeRet := (0, ClosedPipe))
      else if |t.written| == t.limit then t' == t.(writeRet := (0, ShortWrite))
      else t'.writer.Storing? && t'.writer.p == p && t'.writer.m == Min(t.limit - |t.written|, |p|)
  {
    FirstInFirstOut(s, es);
  }

  /** A reset that takes effect leaves an empty buffer with the new limit, which the block has
      room for; any other changes nothing. */
  lemma ResetEmpties(s: State, es: seq<Event>)
    requires Init(s) && Run(s, es).Some? && Undisturbed(s, es) && Run(s, es).value.resetting.Some?
    ensures var t := Run(s, es).value; var t' := Next(t, ResetSet).value;
      && t'.resetting.None? && t'.block == t.block && t'.reader == t.reader && t'.writer == t.writer
      && if !t.closed && t.resetting.value <= |s.block| then
           t'.limit == t.resetting.value && t'.got == t'.written == [] && t'.offR == t'.offW == 0
         else t' == t.(resetting := None)
  {
    BlockSize(s, es);
  }

  /** A write accepts what fits, and says so when that is not everything. */
  lemma WriteAccepts(s: State, es: seq<Event>)
    requires Init(s) && Run(s, es).Some? && Undisturbed(s, es) && Run(s, es).value.writer.Stored?
    ensures var t := Run(s, es).value; var t' := Next(t, WriteDone).value; var (m, err) := t'.writeRet;
      && 0 < m <= |t.writer.p| && t'.written == t.written + t.writer.p[..m]
      && (err.ShortWrite? <==> m < |t.writer.p|)
  {
    RunKeeps(s, es);
  }

  /*** which runs are undisturbed ***/

  /** A reset has waited and not yet locked. */
  predicate Open(es: seq<Event>) {
    es != [] && (es[|es| - 1].ResetWait? || (!es[|es| - 1].ResetSet? && Open(es[..|es| - 1])))
  }

  /** No read or write starts to copy between the two sections of a reset. */
  predicate Guarded(es: seq<Event>) {
    es == [] ||
    (Guarded(es[..|es| - 1]) && (Open(es[..|es| - 1]) ==> !es[|es| - 1].ReadCheck? && !es[|es| - 1].WriteCall?))
  }

  lemma {:induction false} OpenMeansWaiting(s: State, es: seq<Event>)
    requires Init(s) && Run(s, es).Some? && Guarded(es)
    ensures var t := Run(s, es).value; (t.resetting.Some? <==> Open(es)) && (Open(es) ==> !CopiesOut(t) && !CopiesIn(t))
  {
    if es != [] {
      OpenMeansWaiting(s, es[..|es| - 1]);
      WindowStep(Run(s, es[..|es| - 1]).value, es[|es| - 1]);
    }
  }

  lemma WindowStep(t: State, e: Event)
    requires Next(t, e).Some? && (t.resetting.Some? ==> !CopiesOut(t) && !CopiesIn(t) && !e.ReadCheck? && !e.WriteCall?)
    ensures var t' := Next(t, e).value;
      && (t'.resetting.Some? <==> e.ResetWait? || (!e.ResetSet? && t.resetting.Some?))
      && (t'.resetting.Some? ==> !CopiesOut(t') && !CopiesIn(t'))
  {
    if e.WriteCall? || e.WriteStore? || e.WriteDone? {
      WindowWriter(t, e);
    } else if !e.ResetWait? && !e.ResetSet? && !e.Close? {
      WindowReader(t, e);
    }
  }

  lemma WindowWriter(t: State, e: Event)
    requires (e.WriteCall? || e.WriteStore? || e.WriteDone?) && WriterNext(t, e).Some?
    ensures var t' := WriterNext(t, e).value;
      t'.resetting == t.resetting && t'.reader == t.reader && (CopiesIn(t') ==> CopiesIn(t) || e.WriteCall?)
  {
  }

  lemma WindowReader(t: State, e: Event)
    requires (e.ReadCall? || e.ReadCheck? || e.ReadWake? || e.ReadFetch? || e.ReadDone?) && ReaderNext(t, e).Some?
    ensures var t' := ReaderNext(t, e).value;
      t'.resetting == t.resetting && t'.writer == t.writer && (CopiesOut(t') ==> CopiesOut(t) || e.ReadCheck?)
  {
  }

  /** So a run is undisturbed if nothing starts to copy inside a reset. */
  lemma {:induction false} GuardedIsUndisturbed(s: State, es: seq<Event>)
    requires Init(s) && Run(s, es).Some? && Guarded(es)
    ensures Undisturbed(s, es)
  {
    if es != [] {
      GuardedIsUndisturbed(s, es[..|es| - 1]);
      OpenMeansWaiting(s, es[..|es| - 1]);
    }
  }

  /*** and what happens in others ***/

  lemma Then(s: State, es: seq<Event>, e: Event) returns (es': seq<Event>)
    requires Run(s, es).Some? && Next(Run(s, es).value, e).Some?
    ensures es' == es + [e] && Run(s, es') == Next(Run(s, es).value, e)
  {
    es' := es + [e];
    assert es'[..|es'| - 1] == es;
  }

  /** A byte is written, and no reset is on its way. */
  lemma OneWritten(s: State, b: Byte) returns (es: seq<Event>)
    requires Init(s) && |s.block| >= 2
    ensures Run(s, es).Some?
    ensures var t := Run(s, es).value;
      t == s.(block := [b] + s.block[1..], offW := 1, written := [b], writeRet := (1, NoError))
  {
    es := [];
    es := Then(s, es, WriteCall([b]));
    es := Then(s, es, WriteStore);
    es := Then(s, es, WriteDone);
    var t := Run(s, es).value;
    assert [b][..1] == [b];
    assert t.block == [b] + s.block[1..];
  }

  /** A read that starts inside a reset leaves the read offset past the write offset, and
      the next read reports an unexpected end. */
  lemma ReadInsideReset(s: State, b: Byte) returns (es: seq<Event>)
    requires Init(s) && |s.block| >= 2
    ensures Run(s, es).Some? && !Undisturbed(s, es)
    ensures var t := Run(s, es).value;
      && t.offR > t.offW && Next(t, ReadCall(1)).Some?
      && Next(Next(t, ReadCall(1)).value, ReadCheck) == Some(t.(readRet := (0, UnexpectedEOF)))
  {
    es := OneWritten(s, b);
    es := Then(s, es, ResetWait(2));
    es := Then(s, es, ReadCall(1));
    es := Then(s, es, ReadCheck);
    var before := es;
    es := Then(s, es, ResetSet);
    assert es[..|es| - 1] == before && !Calm(Run(s, before).value);
    es := Disturb(s, es, ReadFetch);
    es := Disturb(s, es, ReadDone);
  }

  lemma Disturb(s: State, es: seq<Event>, e: Event) returns (es': seq<Event>)
    requires Run(s, es).Some? && Next(Run(s, es).value, e).Some? && !Undisturbed(s, es)
    ensures es' == es + [e] && Run(s, es') == Next(Run(s, es).value, e) && !Undisturbed(s, es')
  {
    es' := Then(s, es, e);
    assert es'[..|es'| - 1] == es;
  }

  /** The byte that was written is read, and the buffer is drained. */
  lemma OneRead(s: State, b: Byte) returns (es: seq<Event>)
    requires Init(s) && |s.block| >= 2
    ensures Run(s, es).Some?
    ensures var t := Run(s, es).value;
      && t.block == [b] + s.block[1..] && t.offR == t.offW == 1 && t.limit == |s.block| && !t.closed && !t.signalClosed
      && t.reader.NotReading? && t.writer.NotWriting? && t.resetting.None?
  {
    es := OneWritten(s, b);
    es := Then(s, es, ReadCall(1));
    es := Then(s, es, ReadCheck);
    es := Then(s, es, ReadFetch);
    es := Then(s, es, ReadDone);
  }

  /** A write that starts inside a reset puts its bytes where the last ones were, and is
      counted from the beginning: the reader gets the old byte in place of the new one. */
  lemma WriteInsideReset(s: State, b: Byte, c: Byte) returns (es: seq<Event>)
    requires Init(s) && |s.block| >= 2 && b != c
    ensures Run(s, es).Some? && !Undisturbed(s, es)
    ensures var t := Run(s, es).value; t.written == [c] && t.got == [b] && !(t.got <= t.written)
  {
    es := OneRead(s, b);
    es := Then(s, es, ResetWait(2));
    es := Then(s, es, WriteCall([c]));
    var before := es;
    es := Then(s, es, ResetSet);
    assert es[..|es| - 1] == before && !Calm(Run(s, before).value);
    es := Disturb(s, es, WriteStore);
    assert Run(s, es).value.block[0] == b;
    es := Disturb(s, es, WriteDone);
    es := StaleRead(s, es, b, c);
  }

  lemma StaleRead(s: State, es0: seq<Event>, b: Byte, c: Byte) returns (es: seq<Event>)
    requires Run(s, es0).Some? && !Undisturbed(s, es0)
    requires var t := Run(s, es0).value;
      && t.reader.NotReading? && !t.closed && t.offR == 0 && t.offW == 1 && t.limit == 2 && |t.block| >= 2
      && t.block[0] == b && t.got == [] && t.written == [c]
    ensures Run(s, es).Some? && !Undisturbed(s, es)
    ensures var t := Run(s, es).value; t.written == [c] && t.got == [b]
  {
    es := es0;
    es := Disturb(s, es, ReadCall(1));
    es := Disturb(s, es, ReadCheck);
    es := Disturb(s, es, ReadFetch);
    assert Run(s, es).value.block[0..1] == [b];
    es := Disturb(s, es, ReadDone);
  }
}

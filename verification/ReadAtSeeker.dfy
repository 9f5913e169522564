/** Random access to a file that can only be read forward: a cache of readers, each kept
    under the offset it has reached, and a copy of the head of the file. */
module ReadAtSeeker {
  import opened Wrappers
  import opened ByteBlocks
  import BlockStores

  datatype Error = NoError | EOF | UnexpectedEOF | Broken | NotOpened | BadOffset

  /** How far a reader may be behind the offset that is asked for. */
  const WINDOW: nat := 4 * 1024 * 1024

  /** What the readers do during one call: how many bytes one gives while skipping, and
      while filling the buffer, before it breaks, and whether a new one can be opened. */
  datatype Env = Env(skips: nat, gives: nat, opens: bool)

  datatype Whence = SeekStart | SeekCurrent | SeekEnd

  /** A full read of len bytes by a reader at pos that breaks after `gives` bytes. */
  function FullRead(file: seq<Byte>, pos: nat, len: nat, gives: nat): (r: (seq<Byte>, Error))
    requires pos <= |file|
    ensures |r.0| <= len && pos + |r.0| <= |file| && r.0 == file[pos..pos + |r.0|]
    ensures r.1.NoError? <==> |r.0| == len
    ensures gives >= len ==> |r.0| == Min(len, |file| - pos) && !r.1.Broken?
    ensures r.1.EOF? ==> |r.0| == 0
    ensures r.1.UnexpectedEOF? ==> |r.0| > 0
  {
    var there := Min(len, |file| - pos);
    var n := Min(there, gives);
    (file[pos..pos + n],
     if n == len then NoError else if n < there then Broken else if n == 0 then EOF else UnexpectedEOF)
  }

  /** What a read of len bytes at off reports, when the readers behave as env says: no error
      exactly for a full read, and all there is unless a reader breaks or cannot be opened. */
  predicate Reports(size: nat, len: nat, off: int, env: Env, n: nat, err: Error) {
    && n <= (if 0 <= off < size then Min(len, size - off) else 0)
    && (0 <= off < size ==> (err.NoError? <==> n == len && !err.NotOpened?))
    && (0 <= off < size && env.opens && env.gives >= len ==>
          n == Min(len, size - off) && err == if n == len then NoError else EOF)
    && (env.opens ==> !err.NotOpened?)
    && (!(0 <= off < size) ==> err == EOF)
  }

  /** A reader that only goes forward: what it is asked for next comes from where it is. */
  class Reader {
    const file: seq<Byte>
    var pos: nat

    constructor (file: seq<Byte>, pos: nat)
      ensures this.file == file && this.pos == pos
    {
      this.file, this.pos := file, pos;
    }

    /** Reads len bytes, unless it breaks or the file ends before. */
    method ReadFull(len: nat, gives: nat) returns (bytes: seq<Byte>, err: Error)
      requires pos <= |file|
      modifies `pos
      ensures (bytes, err) == FullRead(file, old(pos), len, gives) && pos == old(pos) + |bytes| <= |file|
    {
      var full := FullRead(file, pos, len, gives);
      bytes, err := full.0, full.1;
      pos := pos + |bytes|;
    }
  }

  /** The buffers read from the head of the file, and their reader. */
  datatype HeadCache = HeadCache(reader: Reader, bufs: seq<seq<Byte>>)

  class RangeReadReadAtSeeker {
    const file: seq<Byte>
    var masterOff: nat
    /** The readers that are kept, each under the offset where it is. */
    var readerMap: map<nat, Reader>
    var headCache: Option<HeadCache>

    ghost function Readers(): set<Reader>
      reads this
    {
      readerMap.Values + if headCache.Some? then {headCache.value.reader} else {}
    }

    /** A reader that is kept is where it is kept, so it is kept once; and the head cache
        holds what its own reader has read. */
    ghost predicate Valid()
      reads this, Readers()
    {
      && (forall k :: k in readerMap ==> readerMap[k].file == file && readerMap[k].pos == k <= |file|)
      && (headCache.Some? ==>
            var h := headCache.value;
            h.reader !in readerMap.Values && h.reader.file == file && HeadOk(file, h.bufs, h.reader.pos))
    }

    /** The reader at offset is the stream itself, or one opened there. */
    constructor (file: seq<Byte>, offset: nat)
      requires offset <= |file|
      ensures Valid() && this.file == file && masterOff == offset && headCache == None && readerMap.Keys == {offset}
      ensures fresh(Readers())
    {
      var reader := new Reader(file, offset);
      this.file := file;
      masterOff, readerMap, headCache := offset, map[offset := reader], None;
    }

    /** The reader at the beginning of the file is kept for the head cache alone. */
    method InitHeadCache()
      requires Valid() && (masterOff == 0 ==> 0 in readerMap)
      modifies `readerMap, `headCache
      ensures Valid() && (masterOff == 0 ==> headCache.Some?) && Readers() <= old(Readers())
    {
      if masterOff == 0 {
        var reader := readerMap[0];
        readerMap := readerMap - {0};
        headCache := Some(HeadCache(reader, []));
      }
    }

    /** The nearest reader at or before off that is close enough, if there is one. */
    method Nearest(off: nat) returns (cur: int)
      ensures cur >= 0 ==> cur in readerMap && cur <= off <= cur + WINDOW
      ensures forall k :: k in readerMap && k <= off <= k + WINDOW ==> k <= cur
    {
      cur := -1;
      var keys := readerMap.Keys;
      while keys != {}
        invariant keys <= readerMap.Keys && cur < off
        invariant cur >= 0 ==> cur in readerMap && cur <= off <= cur + WINDOW
        invariant forall k :: k in readerMap && k !in keys && k <= off <= k + WINDOW ==> k <= cur
        decreases |keys|
      {
        var k: nat :| k in keys;
        keys := keys - {k};
        if off == k {
          return k;
        }
        if off > k && off - k <= WINDOW && k > cur {
          cur := k;
        }
      }
    }

    /** A reader that is kept can be brought to off: it is there, or close enough before it and
        skips as far as that. */
    ghost predicate Reachable(off: int, skips: nat)
      reads `readerMap
    {
      exists k :: k in readerMap && k <= off <= k + WINDOW && off - k <= skips
    }

    /** A reader at off: one that is there, one that is skipped forward to it, or, only if none
        can be, a new one.  It is nobody else's: it is kept no longer, and the other readers
        stay where they are; only the nearest one can be lost. */
    method GetReaderAtOffset(off: nat, env: Env) returns (rr: Reader?)
      requires Valid() && off <= |file|
      modifies `readerMap, readerMap.Values
      ensures Valid() && (rr != null <==> env.opens || old(Reachable(off, env.skips)))
      ensures rr != null ==> (fresh(rr) <==> !old(Reachable(off, env.skips)))
      ensures forall k :: k in old(readerMap) && k !in readerMap ==>
        k <= off <= k + WINDOW && forall j :: j in old(readerMap) && j <= off <= j + WINDOW ==> j <= k
      ensures rr != null ==> rr.file == file && rr.pos == off && rr !in Readers() && (fresh(rr) || rr in old(Readers()))
      ensures forall k :: k in readerMap ==> k in old(readerMap) && readerMap[k] == old(readerMap)[k]
      ensures old(off in readerMap) ==> rr == old(readerMap)[off] && readerMap == old(readerMap) - {off}
    {
      var cur := Nearest(off);
      if cur >= 0 {
        rr := readerMap[cur];
        readerMap := readerMap - {cur};
        if off == cur {
          return;
        }
        var skipped, _ := rr.ReadFull(off - cur, env.skips);
        cur := cur + |skipped|;
        if cur == off {
          return;
        }
      }
      rr := null;
      if env.opens {
        rr := new Reader(file, off);
      }
    }

    /** Whether a read at off has a reader without opening one, and so cannot fail for that. */
    ghost function With(off: int, env: Env): Env
      reads `readerMap, `headCache
    {
      env.(opens := env.opens || (off == 0 && headCache.Some?) || Reachable(off, env.skips))
    }

    /** Whatever was read before, a read gives the bytes of the file at its offset.  Behind a
        full read its reader is kept, so reading on opens none. */
    method ReadAt(p: array<Byte>, off: int, env: Env) returns (n: nat, err: Error)
      requires Valid()
      modifies `readerMap, `headCache, Readers(), p
      ensures Valid() && fresh(Readers() - old(Readers()))
      ensures p[..] == AfterRead(old(p[..]), file, off, n)
      ensures Reports(|file|, p.Length, off, old(With(off, env)), n, err)
      ensures 0 <= off && n == p.Length > 0 && !(off == 0 && old(headCache.Some?)) ==> off + n in readerMap
    {
      if off < 0 || off >= |file| {
        return 0, EOF;
      }
      if off == 0 && headCache.Some? {
        n, err := Head(p, env);
        return;
      }
      n, err := ReadByReader(p, off, env);
    }

    /** Keeps a reader under the offset where it is. */
    method Keep(rr: Reader)
      requires Valid() && rr !in Readers() && rr.file == file && rr.pos <= |file|
      modifies `readerMap
      ensures Valid() && readerMap == old(readerMap)[rr.pos := rr]
    {
      readerMap := readerMap[rr.pos := rr];
    }

    method ReadByReader(p: array<Byte>, off: nat, env: Env) returns (n: nat, err: Error)
      requires Valid() && off < |file|
      modifies `readerMap, readerMap.Values, p
      ensures Valid() && fresh(Readers() - old(Readers()))
      ensures p[..] == AfterRead(old(p[..]), file, off, n)
      ensures Reports(|file|, p.Length, off, env.(opens := env.opens || old(Reachable(off, env.skips))), n, err)
      ensures n == p.Length > 0 ==> off + n in readerMap
      ensures old(off in readerMap) && n == p.Length > 0 ==> readerMap[off + n] == old(readerMap)[off]
    {
      var rr := GetReaderAtOffset(off, env);
      if rr == null {
        return 0, NotOpened;
      }
      var bytes;
      bytes, err := rr.ReadFull(p.Length, env.gives);
      n := |bytes|;
      BlockStores.CopyBytes(p, 0, bytes);
      if n > 0 {
        if err == NoError {
          Keep(rr);
        } else if err == UnexpectedEOF {
          err := EOF;
        }
      }
    }

    /** Reads from the head of the file: from the buffers, then from their reader, keeping
        what it gives. */
    method Head(p: array<Byte>, env: Env) returns (n: nat, err: Error)
      requires Valid() && headCache.Some? && |file| > 0
      modifies `headCache, headCache.value.reader, p
      ensures Valid() && headCache.Some? && headCache.value.reader == old(headCache.value.reader)
      ensures p[..] == AfterRead(old(p[..]), file, 0, n) && Reports(|file|, p.Length, 0, env.(opens := true), n, err)
    {
      ghost var was := p[..];
      n := HeadBuffers(p);
      if n == p.Length && (n > 0 || headCache.value.bufs != []) {
        return n, NoError;
      }
      n, err := HeadReader(p, n, env, was);
    }

    /** Copies the buffers into p, as far as they go. */
    method HeadBuffers(p: array<Byte>) returns (n: nat)
      requires Valid() && headCache.Some?
      modifies p
      ensures n == Min(p.Length, headCache.value.reader.pos) && p[..] == AfterRead(old(p[..]), file, 0, n)
    {
      var bufs, pos := headCache.value.bufs, headCache.value.reader.pos;
      ghost var was := p[..];
      n := 0;
      for i := 0 to |bufs|
        invariant n == |Flat(bufs[..i])| && n <= p.Length && (i > 0 ==> n < p.Length)
        invariant n <= |file| && p[..] == AfterRead(was, file, 0, n)
      {
        HeadFits(file, bufs, pos, i);
        var nn := Min(p.Length - n, |bufs[i]|);
        HeadFurther(was, file, bufs, pos, i, n, nn);
        BlockStores.CopyBytes(p, n, bufs[i][..nn]);
        n := n + nn;
        if n == p.Length {
          return;
        }
      }
      assert bufs[..|bufs|] == bufs;
    }

    method HeadReader(p: array<Byte>, n0: nat, env: Env, ghost was: seq<Byte>) returns (n: nat, err: Error)
      requires Valid() && headCache.Some? && n0 == headCache.value.reader.pos <= p.Length == |was| && |file| > 0
      requires p[..] == AfterRead(was, file, 0, n0)
      modifies `headCache, headCache.value.reader, p
      ensures Valid() && headCache.Some? && headCache.value.reader == old(headCache.value.reader)
      ensures p[..] == AfterRead(was, file, 0, n) && Reports(|file|, p.Length, 0, env.(opens := true), n, err)
    {
      var head := headCache.value;
      var nn;
      nn, err := head.reader.ReadFull(p.Length - n0, env.gives);
      HeadPrefix(was, file, n0, nn);
      BlockStores.CopyBytes(p, n0, nn);
      n := n0 + |nn|;
      HeadGrows(file, head.bufs, n0, nn);
      if |nn| > 0 {
        headCache := Some(head.(bufs := head.bufs + [nn]));
        if err == UnexpectedEOF {
          err := EOF;
        }
      }
    }

    method Seek(offset: int, whence: Whence) returns (r: int, err: Error)
      modifies `masterOff
      ensures
        var to := offset + match whence {
          case SeekStart => 0 case SeekCurrent => old(masterOff) case SeekEnd => |file| };
        if 0 <= to <= |file| then err == NoError && r == to == masterOff
        else err == BadOffset && r == 0 && masterOff == old(masterOff)
    {
      var to := offset + (match whence case SeekStart => 0 case SeekCurrent => masterOff case SeekEnd => |file|);
      if to < 0 || to > |file| {
        return 0, BadOffset;
      }
      masterOff := to;
      return to, NoError;
    }

    /** Reads on from where the last sequential read or seek left off. */
    method Read(p: array<Byte>, env: Env) returns (n: nat, err: Error)
      requires Valid()
      modifies this, Readers(), p
      ensures Valid() && fresh(Readers() - old(Readers()))
      ensures masterOff == old(masterOff) + n && p[..] == AfterRead(old(p[..]), file, old(masterOff), n)
      ensures Reports(|file|, p.Length, old(masterOff), old(With(masterOff, env)), n, err)
    {
      n, err := ReadAt(p, masterOff, env);
      masterOff := masterOff + n;
    }
  }

  /** The buffers, one after the other, are the beginning of the file that was read. */
  ghost predicate HeadOk(file: seq<Byte>, bufs: seq<seq<Byte>>, pos: nat) {
    pos <= |file| && Flat(bufs) == file[..pos]
  }

  lemma HeadFits(file: seq<Byte>, bufs: seq<seq<Byte>>, pos: nat, i: nat)
    requires HeadOk(file, bufs, pos) && i < |bufs|
    ensures Flat(bufs[..i + 1]) == Flat(bufs[..i]) + bufs[i] && |Flat(bufs[..i + 1])| <= pos
    ensures bufs[i] == file[|Flat(bufs[..i])|..|Flat(bufs[..i + 1])|]
  {
    FlatNext(bufs, i);
    BlockIn(bufs, i, 0, |bufs[i]|);
    var start := |Flat(bufs[..i])|;
    assert file[..pos][start..start + |bufs[i]|] == file[start..start + |bufs[i]|];
  }

  lemma HeadFurther(was: seq<Byte>, file: seq<Byte>, bufs: seq<seq<Byte>>, pos: nat, i: nat, n: nat, nn: nat)
    requires HeadOk(file, bufs, pos) && i < |bufs| && n == |Flat(bufs[..i])| && nn <= |bufs[i]| && n + nn <= |was|
    ensures n + nn <= |file| && Splice(AfterRead(was, file, 0, n), n, bufs[i][..nn]) == AfterRead(was, file, 0, n + nn)
  {
    HeadFits(file, bufs, pos, i);
    assert bufs[i][..nn] == file[n..n + nn];
    HeadPrefix(was, file, n, bufs[i][..nn]);
  }

  lemma HeadPrefix(was: seq<Byte>, file: seq<Byte>, n: nat, more: seq<Byte>)
    requires n + |more| <= |was| && n + |more| <= |file| && more == file[n..n + |more|]
    ensures Splice(AfterRead(was, file, 0, n), n, more) == AfterRead(was, file, 0, n + |more|)
  {
    ReadFurther(was, 0, file, 0, n, |more|);
  }

  lemma HeadGrows(file: seq<Byte>, bufs: seq<seq<Byte>>, pos: nat, more: seq<Byte>)
    requires HeadOk(file, bufs, pos) && pos + |more| <= |file| && more == file[pos..pos + |more|]
    ensures HeadOk(file, bufs + [more], pos + |more|)
  {
    assert (bufs + [more])[..|bufs|] == bufs;
    assert file[..pos] + more == file[..pos + |more|];
  }
}

/** Bytes kept in consecutive blocks, seen as one flat sequence. */
module ByteBlocks {
  type Byte = bv8

  function Flat(bs: seq<seq<Byte>>): seq<Byte> {
    if bs == [] then [] else Flat(bs[..|bs| - 1]) + bs[|bs| - 1]
  }

  /** c with the bytes from at on replaced by d. */
  function Splice(c: seq<Byte>, at: nat, d: seq<Byte>): (r: seq<Byte>)
    requires at + |d| <= |c|
    ensures |r| == |c|
  {
    seq(|c|, k requires 0 <= k < |c| => if at <= k < at + |d| then d[k - at] else c[k])
  }

  lemma SpliceIs(c: seq<Byte>, at: nat, d: seq<Byte>)
    requires at + |d| <= |c|
    ensures forall k :: 0 <= k < |c| ==> Splice(c, at, d)[k] == if at <= k < at + |d| then d[k - at] else c[k]
  {
  }

  function Zeros(n: nat): (r: seq<Byte>)
    ensures |r| == n && forall i :: 0 <= i < n ==> r[i] == 0
  {
    seq(n, _ => 0)
  }

  lemma FlatNext(bs: seq<seq<Byte>>, i: nat)
    requires i < |bs|
    ensures Flat(bs[..i + 1]) == Flat(bs[..i]) + bs[i]
  {
    assert bs[..i + 1][..i] == bs[..i];
  }

  lemma {:induction false} FlatAppend(xs: seq<seq<Byte>>, bs: seq<seq<Byte>>)
    ensures Flat(xs + bs) == Flat(xs) + Flat(bs)
  {
    if bs == [] {
      assert xs + bs == xs;
    } else {
      assert (xs + bs)[..|xs + bs| - 1] == xs + bs[..|bs| - 1];
      FlatAppend(xs, bs[..|bs| - 1]);
    }
  }

  lemma FlatCut(bs: seq<seq<Byte>>, i: nat)
    requires i <= |bs|
    ensures Flat(bs) == Flat(bs[..i]) + Flat(bs[i..])
  {
    assert bs[..i] + bs[i..] == bs;
    FlatAppend(bs[..i], bs[i..]);
  }

  lemma FlatAround(bs: seq<seq<Byte>>, i: nat)
    requires i < |bs|
    ensures Flat(bs) == Flat(bs[..i]) + bs[i] + Flat(bs[i + 1..])
  {
    FlatCut(bs, i + 1);
    FlatNext(bs, i);
  }

  /** Block i starts in the flat sequence where the blocks before it end. */
  lemma BlockIn(bs: seq<seq<Byte>>, i: nat, from: nat, to: nat)
    requires i < |bs| && from <= to <= |bs[i]|
    ensures |Flat(bs[..i])| + to <= |Flat(bs)|
    ensures Flat(bs)[|Flat(bs[..i])| + from..|Flat(bs[..i])| + to] == bs[i][from..to]
  {
    FlatAround(bs, i);
  }

  /** Replacing bytes of one block replaces them in the flat sequence. */
  lemma SpliceBlock(bs: seq<seq<Byte>>, i: nat, at: nat, d: seq<Byte>)
    requires i < |bs| && at + |d| <= |bs[i]|
    ensures |Flat(bs[..i])| + at + |d| <= |Flat(bs)|
    ensures Flat(bs[i := Splice(bs[i], at, d)]) == Splice(Flat(bs), |Flat(bs[..i])| + at, d)
  {
    var bs' := bs[i := Splice(bs[i], at, d)];
    FlatAround(bs, i);
    FlatAround(bs', i);
    assert bs'[..i] == bs[..i] && bs'[i + 1..] == bs[i + 1..];
    SpliceMiddle(Flat(bs[..i]), bs[i], Flat(bs[i + 1..]), at, d);
  }

  lemma SpliceMiddle(a: seq<Byte>, b: seq<Byte>, c: seq<Byte>, at: nat, d: seq<Byte>)
    requires at + |d| <= |b|
    ensures Splice(a + b + c, |a| + at, d) == a + Splice(b, at, d) + c
  {
    SpliceIs(a + b + c, |a| + at, d);
    SpliceIs(b, at, d);
  }

  lemma SpliceTwice(c: seq<Byte>, at: nat, d: seq<Byte>, e: seq<Byte>)
    requires at + |d| + |e| <= |c|
    ensures Splice(Splice(c, at, d), at + |d|, e) == Splice(c, at, d + e)
  {
    SpliceIs(c, at, d);
    SpliceIs(Splice(c, at, d), at + |d|, e);
    SpliceIs(c, at, d + e);
  }

  lemma ReadFurther(was: seq<Byte>, lo: nat, c: seq<Byte>, off: nat, n: nat, nn: nat)
    requires off + n + nn <= |c| && lo + n + nn <= |was|
    ensures Splice(Splice(was, lo, c[off..off + n]), lo + n, c[off + n..off + n + nn]) ==
      Splice(was, lo, c[off..off + n + nn])
  {
    SpliceTwice(was, lo, c[off..off + n], c[off + n..off + n + nn]);
    assert c[off..off + n] + c[off + n..off + n + nn] == c[off..off + n + nn];
  }

  /** was after n bytes of c from off on were read into its beginning. */
  function AfterRead(was: seq<Byte>, c: seq<Byte>, off: int, n: nat): seq<Byte> {
    if n <= |was| && 0 <= off && off + n <= |c| then Splice(was, 0, c[off..off + n]) else was
  }

  function Min(a: int, b: int): int {
    if a <= b then a else b
  }

  function Max(a: int, b: int): int {
    if a <= b then b else a
  }
}

/** Stores that keep bytes in a list of blocks: in memory, or in files of which only a
    part may have been written. */
module BlockStores {
  import opened ByteBlocks

  datatype Error = NoError | EOF | ShortWrite | IOError | NotEnoughMemory

  /** buf[at..at + k] := from[off..off + k]. */
  method CopyBytes(buf: array<Byte>, at: nat, from: seq<Byte>)
    requires at + |from| <= buf.Length
    modifies buf
    ensures buf[..] == Splice(old(buf[..]), at, from)
  {
    SpliceIs(buf[..], at, from);
    forall i | 0 <= i < |from| {
      buf[at + i] := from[i];
    }
  }

  class BufferStore {
    var blocks: seq<seq<Byte>>
    var size: nat

    ghost function Contents(): seq<Byte>
      reads this
    {
      Flat(blocks)
    }

    ghost predicate Valid()
      reads this
    {
      size == |Contents()|
    }

    constructor ()
      ensures Valid() && Contents() == []
    {
      blocks := [];
      size := 0;
    }

    method Append(buf: seq<Byte>)
      requires Valid()
      modifies this
      ensures Valid() && Contents() == old(Contents()) + buf && blocks == old(blocks) + [buf]
    {
      size := size + |buf|;
      blocks := blocks + [buf];
    }

    /** Grows to the size asked for with zeros; never shrinks. */
    method GrowTo(newSize: nat)
      requires Valid()
      modifies this
      ensures Valid() && size == Max(newSize, old(size))
      ensures Contents() == old(Contents()) + Zeros(size - old(size))
    {
      if newSize <= size {
        return;
      }
      Append(Zeros(newSize - size));
    }

    /** Reads into p[lo..hi] from offset off: as many bytes as there are, and an end of file
        exactly when that is fewer than asked. */
    method ReadAt(p: array<Byte>, lo: nat, hi: nat, off0: int) returns (n: nat, err: Error)
      requires Valid() && lo <= hi <= p.Length
      modifies p
      ensures Got(old(p[..]), p[..], lo, hi, Contents(), off0, n)
      ensures err == if n == hi - lo then NoError else EOF
    {
      if lo == hi {
        return 0, NoError;
      }
      if off0 < 0 || off0 >= size {
        return 0, EOF;
      }
      n := 0;
      var off := off0;
      ghost var was := p[..];
      for i := 0 to |blocks|
        invariant ReadTo(was, p[..], lo, hi, blocks, off0, i, off, n)
      {
        off, n := ReadTurn(p, lo, hi, i, off, n, was, off0);
        if n == hi - lo {
          return n, NoError;
        }
      }
      assert blocks[..|blocks|] == blocks;
      return n, EOF;
    }

    /** Block i: skipped, or read from until p or the block is used up. */
    method ReadTurn(p: array<Byte>, lo: nat, hi: nat, i: nat, off: nat, n: nat, ghost was: seq<Byte>, ghost off0: int)
        returns (off': nat, n': nat)
      requires i < |blocks| && ReadTo(was, p[..], lo, hi, blocks, off0, i, off, n) && p.Length == |was|
      modifies p
      ensures ReadThrough(was, p[..], lo, hi, blocks, off0, i + 1, off', n')
    {
      if off >= |blocks[i]| {
        SkipRead(was, p[..], lo, hi, blocks, off0, i, off, n);
        return off - |blocks[i]|, n;
      }
      n' := ReadHere(p, lo, hi, blocks[i], i, off, n, was, blocks, off0);
      off' := 0;
    }

    static method ReadHere(p: array<Byte>, lo: nat, hi: nat, block: seq<Byte>, ghost i: nat, off: nat, n: nat,
                           ghost was: seq<Byte>, ghost vals: seq<seq<Byte>>, ghost off0: int)
      returns (n': nat)
      requires i < |vals| && vals[i] == block && off < |block| && p.Length == |was|
      requires ReadTo(was, p[..], lo, hi, vals, off0, i, off, n)
      modifies p
      ensures ReadThrough(was, p[..], lo, hi, vals, off0, i + 1, 0, n')
    {
      var nn := Min(hi - lo - n, |block| - off);
      ghost var before := p[..];
      CopyBytes(p, lo + n, block[off..off + nn]);
      ReadMore(was, before, lo, hi, vals, off0, i, off, n, nn, p[..]);
      n' := n + nn;
    }

    /** Writes d at offset off: as many bytes as there is room for in the store, which keeps
        its size, and a short write exactly when that is fewer. */
    method WriteAt(d: seq<Byte>, off0: int) returns (n: nat, err: Error)
      requires Valid()
      modifies `blocks
      ensures Valid() && Put(old(Contents()), Contents(), d, off0, n)
      ensures err == if n == |d| then NoError else ShortWrite
    {
      if d == [] {
        return 0, NoError;
      }
      if off0 < 0 || off0 >= size {
        return 0, ShortWrite;
      }
      n := 0;
      var off := off0;
      ghost var was := Contents();
      for i := 0 to |blocks|
        invariant |blocks| == |old(blocks)| && WriteTo(was, blocks, d, off0, i, off, n)
      {
        off, n := WriteTurn(d, i, off, n, was, off0);
        if n == |d| {
          return n, NoError;
        }
      }
      assert blocks[..|blocks|] == blocks;
      return n, ShortWrite;
    }

    method WriteTurn(d: seq<Byte>, i: nat, off: nat, n: nat, ghost was: seq<Byte>, ghost off0: int)
        returns (off': nat, n': nat)
      requires i < |blocks| && WriteTo(was, blocks, d, off0, i, off, n)
      modifies `blocks
      ensures |blocks| == |old(blocks)| && |Flat(blocks)| == |was|
      ensures WriteThrough(was, blocks, d, off0, i + 1, off', n')
    {
      if off >= |blocks[i]| {
        SkipWrite(was, blocks, d, off0, i, off, n);
        return off - |blocks[i]|, n;
      }
      var nn := Min(|d| - n, |blocks[i]| - off);
      WriteMore(was, blocks, d, off0, i, off, n, nn);
      blocks := blocks[i := Splice(blocks[i], off, d[n..n + nn])];
      return 0, n + nn;
    }
  }

  /*** what a read and a write do to flat bytes ***/

  /** n bytes of c from off on are at lo in p, which is otherwise as before; n is the number
      of bytes there are, up to the number asked for. */
  predicate Got(was: seq<Byte>, p: seq<Byte>, lo: nat, hi: nat, c: seq<Byte>, off: int, n: nat)
    requires lo <= hi <= |was|
  {
    && n == (if 0 <= off < |c| then Min(hi - lo, |c| - off) else 0)
    && p == (if n > 0 then Splice(was, lo, c[off..off + n]) else was)
  }

  /** The first n bytes of d replaced those of c from off on; n is the number of bytes there
      is room for. */
  predicate Put(was: seq<Byte>, c: seq<Byte>, d: seq<Byte>, off: int, n: nat) {
    && n == (if 0 <= off < |was| then Min(|d|, |was| - off) else 0)
    && c == (if n > 0 then Splice(was, off, d[..n]) else was)
  }

  /** Before block i, n bytes were read, and off bytes are to be skipped from there. */
  predicate ReadTo(was: seq<Byte>, p: seq<Byte>, lo: nat, hi: nat, vals: seq<seq<Byte>>, off0: int, i: nat, off: int,
                   n: nat) {
    && i <= |vals| && lo <= hi <= |was| && n < hi - lo
    && 0 <= off && 0 <= off0 && off0 + n == |Flat(vals[..i])| + off && (n > 0 ==> off == 0)
    && off0 < |Flat(vals)| && off0 + n <= |Flat(vals)|
    && p == Splice(was, lo, Flat(vals)[off0..off0 + n])
  }

  /** All was read, or all there is before block i. */
  predicate ReadThrough(was: seq<Byte>, p: seq<Byte>, lo: nat, hi: nat, vals: seq<seq<Byte>>, off0: int, i: nat,
                        off: int, n: nat) {
    && lo <= hi <= |was|
    && if n == hi - lo then Got(was, p, lo, hi, Flat(vals), off0, n) else ReadTo(was, p, lo, hi, vals, off0, i, off, n)
  }

  lemma SkipRead(was: seq<Byte>, p: seq<Byte>, lo: nat, hi: nat, vals: seq<seq<Byte>>, off0: int, i: nat, off: int,
                 n: nat)
    requires ReadTo(was, p, lo, hi, vals, off0, i, off, n) && i < |vals| && off >= |vals[i]|
    ensures ReadThrough(was, p, lo, hi, vals, off0, i + 1, off - |vals[i]|, n)
  {
    FlatNext(vals, i);
  }

  /** Copying nn bytes of block i reads on: either everything asked for is there, or the
      block is used up. */
  lemma ReadMore(was: seq<Byte>, p: seq<Byte>, lo: nat, hi: nat, vals: seq<seq<Byte>>, off0: int, i: nat, off: int,
                 n: nat, nn: int, p': seq<Byte>)
    requires ReadTo(was, p, lo, hi, vals, off0, i, off, n) && i < |vals| && off < |vals[i]|
    requires nn == Min(hi - lo - n, |vals[i]| - off) && p' == Splice(p, lo + n, vals[i][off..off + nn])
    ensures ReadThrough(was, p', lo, hi, vals, off0, i + 1, 0, n + nn)
  {
    FlatNext(vals, i);
    ReadBlock(was, p, lo, hi, vals, off0, i, off, n, nn, p');
  }

  lemma ReadBlock(was: seq<Byte>, p: seq<Byte>, lo: nat, hi: nat, vals: seq<seq<Byte>>, off0: int, i: nat, off: int,
                  n: nat, nn: int, p': seq<Byte>)
    requires ReadTo(was, p, lo, hi, vals, off0, i, off, n) && i < |vals| && off < |vals[i]|
    requires 0 <= nn <= Min(hi - lo - n, |vals[i]| - off) && p' == Splice(p, lo + n, vals[i][off..off + nn])
    ensures off0 + n + nn <= |Flat(vals)| && p' == Splice(was, lo, Flat(vals)[off0..off0 + n + nn])
  {
    BlockIn(vals, i, off, off + nn);
    ReadFurther(was, lo, Flat(vals), off0, n, nn);
  }

  /** Before block i, the first n bytes of d were written, and off bytes are to be skipped
      from there. */
  predicate WriteTo(was: seq<Byte>, vals: seq<seq<Byte>>, d: seq<Byte>, off0: int, i: nat, off: int, n: nat) {
    && i <= |vals| && n < |d| && |Flat(vals)| == |was|
    && 0 <= off && 0 <= off0 < |was| && off0 + n == |Flat(vals[..i])| + off && (n > 0 ==> off == 0)
    && off0 + n <= |was| && Flat(vals) == Splice(was, off0, d[..n])
  }

  /** All was written, or all there is room for before block i. */
  predicate WriteThrough(was: seq<Byte>, vals: seq<seq<Byte>>, d: seq<Byte>, off0: int, i: nat, off: int, n: nat) {
    if n == |d| then Put(was, Flat(vals), d, off0, n) else WriteTo(was, vals, d, off0, i, off, n)
  }

  lemma SkipWrite(was: seq<Byte>, vals: seq<seq<Byte>>, d: seq<Byte>, off0: int, i: nat, off: int, n: nat)
    requires WriteTo(was, vals, d, off0, i, off, n) && i < |vals| && off >= |vals[i]|
    ensures WriteThrough(was, vals, d, off0, i + 1, off - |vals[i]|, n)
  {
    FlatNext(vals, i);
  }

  lemma WritePart(was: seq<Byte>, vals: seq<seq<Byte>>, d: seq<Byte>, off0: int, i: nat, off: int, n: nat, nn: nat)
    requires WriteTo(was, vals, d, off0, i, off, n) && i < |vals| && off < |vals[i]|
    requires nn <= Min(|d| - n, |vals[i]| - off)
    ensures off0 + n + nn <= |was|
    ensures Flat(vals[i := Splice(vals[i], off, d[n..n + nn])]) == Splice(was, off0, d[..n + nn])
  {
    SpliceBlock(vals, i, off, d[n..n + nn]);
    var at := |Flat(vals[..i])| + off;
    assert at == off0 + n;
    WriteFurther(was, off0, d, n, nn);
  }

  lemma WriteFurther(was: seq<Byte>, at: nat, d: seq<Byte>, n: nat, nn: nat)
    requires n + nn <= |d| && at + n + nn <= |was|
    ensures Splice(Splice(was, at, d[..n]), at + n, d[n..n + nn]) == Splice(was, at, d[..n + nn])
  {
    SpliceTwice(was, at, d[..n], d[n..n + nn]);
    assert d[..n] + d[n..n + nn] == d[..n + nn];
  }

  lemma WriteMore(was: seq<Byte>, vals: seq<seq<Byte>>, d: seq<Byte>, off0: int, i: nat, off: int, n: nat, nn: int)
    requires WriteTo(was, vals, d, off0, i, off, n) && i < |vals| && off < |vals[i]|
    requires nn == Min(|d| - n, |vals[i]| - off)
    ensures var vals' := vals[i := Splice(vals[i], off, d[n..n + nn])];
      |Flat(vals')| == |was| && WriteThrough(was, vals', d, off0, i + 1, 0, n + nn)
  {
    var vals' := vals[i := Splice(vals[i], off, d[n..n + nn])];
    FlatNext(vals, i);
    FlatNext(vals', i);
    assert vals'[..i] == vals[..i];
    WritePart(was, vals, d, off0, i, off, n, nn);
  }
}

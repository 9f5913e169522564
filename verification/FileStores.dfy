/** A store of several files that grow as they are written, each padded with zeros to the
    size it was given.  How many bytes the disk takes or gives before it fails is a
    parameter of each call. */
module FileStores {
  import opened ByteBlocks
  import opened BlockStores

  /** A temporary file, the size of its block, and how far the block was written. */
  datatype FileBlock = FileBlock(data: seq<Byte>, size: nat, written: nat)

  predicate BlockOk(b: FileBlock) {
    |b.data| <= b.written <= b.size
  }

  /** What the block holds: its file, and zeros for what was never written. */
  function Visible(b: FileBlock): (r: seq<Byte>)
    requires BlockOk(b)
    ensures |r| == b.size
  {
    b.data + Zeros(b.size - |b.data|)
  }

  /** The operating system's positioned write: a gap before it reads as zeros. */
  function FileWrite(data: seq<Byte>, off: nat, d: seq<Byte>): seq<Byte> {
    if d == [] then data
    else if off >= |data| then data + Zeros(off - |data|) + d
    else data[..off] + d + (if off + |d| < |data| then data[off + |d|..] else [])
  }

  /** Its positioned read: what there is of k bytes. */
  function FileRead(data: seq<Byte>, off: nat, k: nat): seq<Byte> {
    if off >= |data| then [] else data[off..Min(off + k, |data|)]
  }

  /** The file when its size is set: cut, or filled up with zeros. */
  function FileResize(data: seq<Byte>, size: nat): (r: seq<Byte>)
    ensures |r| == size
  {
    if size <= |data| then data[..size] else data + Zeros(size - |data|)
  }

  /** The block after a write of d, of which the disk took all. */
  function WriteBlock(b: FileBlock, off: nat, d: seq<Byte>): FileBlock {
    b.(data := FileWrite(b.data, off, d), written := Max(b.written, off + |d|))
  }

  lemma WriteVisible(b: FileBlock, off: nat, d: seq<Byte>)
    requires BlockOk(b) && off + |d| <= b.size
    ensures BlockOk(WriteBlock(b, off, d)) && WriteBlock(b, off, d).size == b.size
    ensures Visible(WriteBlock(b, off, d)) == Splice(Visible(b), off, d)
  {
    var b' := WriteBlock(b, off, d);
    SpliceIs(Visible(b), off, d);
    if d != [] {
      forall i | 0 <= i < b.size ensures Visible(b')[i] == Splice(Visible(b), off, d)[i] {
      }
    }
  }

  /** The file's part of a read, and what is left to fill with zeros, make up the block. */
  lemma ReadVisible(b: FileBlock, off: nat, k: nat, fileReadable: nat)
    requires BlockOk(b) && off + k <= b.size && fileReadable == Max(0, Min(k, b.written - off))
    ensures var file := FileRead(b.data, off, fileReadable);
      && |file| <= fileReadable <= k && file + Zeros(k - |file|) == Visible(b)[off..off + k]
      && file == Visible(b)[off..off + k][..|file|]
  {
  }

  /** So do a beginning of the file's part alone, or all of it with the zeros. */
  lemma ReadPrefix(b: FileBlock, off: nat, k: nat, fileReadable: nat, n: nat, zeroFill: nat)
    requires BlockOk(b) && off + k <= b.size && fileReadable == Max(0, Min(k, b.written - off))
    requires var file := FileRead(b.data, off, fileReadable);
      n <= |file| <= k && (zeroFill == 0 || (n == |file| && zeroFill == k - n))
    ensures FileRead(b.data, off, fileReadable)[..n] + Zeros(zeroFill) == Visible(b)[off..off + n + zeroFill]
  {
    ReadVisible(b, off, k, fileReadable);
    var file := FileRead(b.data, off, fileReadable);
    forall i | 0 <= i < n + zeroFill
      ensures (file[..n] + Zeros(zeroFill))[i] == Visible(b)[off..off + n + zeroFill][i]
    {
      assert (file + Zeros(k - |file|))[i] == Visible(b)[off..off + k][i] == Visible(b)[off + i];
    }
  }

  ghost function Visibles(bs: seq<FileBlock>): (r: seq<seq<Byte>>)
    requires forall i :: 0 <= i < |bs| ==> BlockOk(bs[i])
    ensures |r| == |bs| && forall i :: 0 <= i < |r| ==> r[i] == Visible(bs[i])
  {
    seq(|bs|, i requires 0 <= i < |bs| => Visible(bs[i]))
  }

  lemma OneWritten(bs: seq<FileBlock>, i: nat, off: nat, d: seq<Byte>)
    requires i < |bs| && off + |d| <= bs[i].size && forall k :: 0 <= k < |bs| ==> BlockOk(bs[k])
    ensures var bs' := bs[i := WriteBlock(bs[i], off, d)];
      && (forall k :: 0 <= k < |bs'| ==> BlockOk(bs'[k]))
      && Visibles(bs') == Visibles(bs)[i := Splice(Visibles(bs)[i], off, d)]
  {
    WriteVisible(bs[i], off, d);
  }

  lemma OneBlock(b: FileBlock)
    requires BlockOk(b)
    ensures Flat(Visibles([b])) == Visible(b) && (b.data == [] ==> Visible(b) == Zeros(b.size))
  {
    assert Visibles([b]) == [Visible(b)];
    FlatNext([Visible(b)], 0);
    assert [Visible(b)][..0] == [] && [Visible(b)][..1] == [Visible(b)];
  }

  /** As Got, but a disk error may have cut it short. */
  predicate GotPart(was: seq<Byte>, p: seq<Byte>, lo: nat, hi: nat, c: seq<Byte>, off: int, n: nat) {
    && lo + n <= hi <= |was| && 0 <= off && off + n <= |c|
    && p == Splice(was, lo, c[off..off + n])
  }

  /** What a read from a store comes to. */
  predicate ReadOutcome(was: seq<Byte>, p: seq<Byte>, lo: nat, hi: nat, c: seq<Byte>, off: int, room: nat, n: nat,
                        err: Error) {
    && lo <= hi <= |was|
    && if err.IOError? then room < hi - lo && GotPart(was, p, lo, hi, c, off, n)
       else Got(was, p, lo, hi, c, off, n) && err == if n == hi - lo then NoError else EOF
  }

  /** What a write to a store comes to. */
  predicate WriteOutcome(was: seq<Byte>, c: seq<Byte>, d: seq<Byte>, off: int, room: nat, n: nat, err: Error) {
    if err.IOError? then n == room && PutPart(was, c, d, off, n)
    else Put(was, c, d, off, n) && err == if n == |d| then NoError else ShortWrite
  }

  /** As Put, but a disk error may have cut it short. */
  predicate PutPart(was: seq<Byte>, c: seq<Byte>, d: seq<Byte>, off: int, n: nat) {
    && n < |d| && 0 <= off && off + n <= |was|
    && c == Splice(was, off, d[..n])
  }

  lemma ReadPart(was: seq<Byte>, p: seq<Byte>, lo: nat, hi: nat, vals: seq<seq<Byte>>, off0: int, i: nat, off: int,
                 n: nat, nn: nat, p': seq<Byte>)
    requires ReadTo(was, p, lo, hi, vals, off0, i, off, n) && i < |vals| && off < |vals[i]|
    requires nn <= Min(hi - lo - n, |vals[i]| - off) && p' == Splice(p, lo + n, vals[i][off..off + nn])
    ensures GotPart(was, p', lo, hi, Flat(vals), off0, n + nn)
  {
    ReadBlock(was, p, lo, hi, vals, off0, i, off, n, nn, p');
  }

  lemma ReadEither(was: seq<Byte>, p: seq<Byte>, lo: nat, hi: nat, vals: seq<seq<Byte>>, off0: int, i: nat, off: int,
                   n: nat, canRead: int, nn: nat, p': seq<Byte>)
    requires ReadTo(was, p, lo, hi, vals, off0, i, off, n) && i < |vals| && off < |vals[i]|
    requires nn <= canRead == Min(hi - lo - n, |vals[i]| - off) && p' == Splice(p, lo + n, vals[i][off..off + nn])
    ensures nn < canRead ==> n + nn < hi - lo && GotPart(was, p', lo, hi, Flat(vals), off0, n + nn)
    ensures nn == canRead ==> ReadThrough(was, p', lo, hi, vals, off0, i + 1, 0, n + nn)
  {
    if nn < canRead {
      ReadPart(was, p, lo, hi, vals, off0, i, off, n, nn, p');
    } else {
      ReadMore(was, p, lo, hi, vals, off0, i, off, n, nn, p');
    }
  }

  class MultiFileStore {
    var blocks: seq<FileBlock>
    var size: nat

    ghost predicate BlocksOk()
      reads this
    {
      forall i :: 0 <= i < |blocks| ==> BlockOk(blocks[i])
    }

    ghost function Contents(): seq<Byte>
      reads this
      requires BlocksOk()
    {
      Flat(Visibles(blocks))
    }

    ghost predicate Valid()
      reads this
    {
      BlocksOk() && size == |Contents()|
    }

    /** The first block's file was created but could not be given its size. */
    constructor (blockSize: nat)
      ensures Valid() && Contents() == Zeros(blockSize)
    {
      blocks := [FileBlock([], blockSize, 0)];
      size := blockSize;
      new;
      OneBlock(blocks[0]);
    }

    /** Grows with zeros to the size asked for, unless no file can be created. */
    method GrowTo(newSize: nat, created: bool) returns (err: Error)
      requires Valid()
      modifies this
      ensures Valid()
      ensures err == if newSize <= old(size) || created then NoError else IOError
      ensures size == if err.NoError? then Max(newSize, old(size)) else old(size)
      ensures Contents() == old(Contents()) + Zeros(size - old(size))
    {
      if newSize <= size {
        return NoError;
      }
      if !created {
        return IOError;
      }
      var b := FileBlock([], newSize - size, 0);
      ghost var vals := Visibles(blocks);
      blocks := blocks + [b];
      size := newSize;
      assert Visibles(blocks) == vals + [Visible(b)];
      assert Visibles(blocks)[..|vals|] == vals;
      assert Visible(b) == Zeros(b.size);
      return NoError;
    }

    /** Reads into p[lo..hi] from offset off; without a disk error, all bytes there are. */
    method ReadAt(p: array<Byte>, lo: nat, hi: nat, off0: int, room: nat) returns (n: nat, err: Error)
      requires Valid() && lo <= hi <= p.Length
      modifies p
      ensures ReadOutcome(old(p[..]), p[..], lo, hi, Contents(), off0, room, n, err)
    {
      if lo == hi {
        return 0, NoError;
      }
      if off0 < 0 || off0 >= size {
        return 0, EOF;
      }
      n := 0;
      var off := off0;
      ghost var was, vals := p[..], Visibles(blocks);
      for i := 0 to |blocks|
        invariant ReadTo(was, p[..], lo, hi, vals, off0, i, off, n)
      {
        var ok;
        ok, off, n := ReadTurn(p, lo, hi, i, off, n, room, was, off0);
        if !ok {
          return n, IOError;
        }
        if n == hi - lo {
          return n, NoError;
        }
      }
      assert vals[..|blocks|] == vals;
      return n, EOF;
    }

    method ReadTurn(p: array<Byte>, lo: nat, hi: nat, i: nat, off: nat, n: nat, room: nat, ghost was: seq<Byte>,
                    ghost off0: int)
      returns (ok: bool, off': nat, n': nat)
      requires BlocksOk() && i < |blocks| && p.Length == |was|
      requires ReadTo(was, p[..], lo, hi, Visibles(blocks), off0, i, off, n)
      modifies p
      ensures !ok ==> room < hi - lo && GotPart(was, p[..], lo, hi, Contents(), off0, n')
      ensures ok ==> ReadThrough(was, p[..], lo, hi, Visibles(blocks), off0, i + 1, off', n')
    {
      ghost var vals := Visibles(blocks);
      var c := blocks[i];
      if off >= c.size {
        SkipRead(was, p[..], lo, hi, vals, off0, i, off, n);
        return true, off - c.size, n;
      }
      ok, n' := ReadHere(p, lo, hi, c, i, off, n, room, was, vals, off0);
      off' := 0;
    }

    static method ReadHere(p: array<Byte>, lo: nat, hi: nat, c: FileBlock, ghost i: nat, off: nat, n: nat, room: nat,
                           ghost was: seq<Byte>, ghost vals: seq<seq<Byte>>, ghost off0: int)
      returns (ok: bool, n': nat)
      requires BlockOk(c) && i < |vals| && vals[i] == Visible(c) && off < c.size && p.Length == |was|
      requires ReadTo(was, p[..], lo, hi, vals, off0, i, off, n)
      modifies p
      ensures !ok ==> room < hi - lo && GotPart(was, p[..], lo, hi, Flat(vals), off0, n')
      ensures ok ==> ReadThrough(was, p[..], lo, hi, vals, off0, i + 1, 0, n')
    {
      var canRead := Min(hi - lo - n, c.size - off);
      ghost var before := p[..];
      var nn := ReadBlock(p, lo + n, c, off, canRead, Max(0, room - n));
      ReadEither(was, before, lo, hi, vals, off0, i, off, n, canRead, nn, p[..]);
      return nn == canRead, n + nn;
    }

    /** Reads k bytes of one block: first its file, then zeros. */
    static method ReadBlock(p: array<Byte>, at: nat, c: FileBlock, off: nat, k: nat, room: nat) returns (nn: nat)
      requires BlockOk(c) && off + k <= c.size && at + k <= p.Length
      modifies p
      ensures nn <= k && (nn < k ==> nn == room)
      ensures p[..] == Splice(old(p[..]), at, Visible(c)[off..off + nn])
    {
      var fileReadable := Max(0, Min(k, c.written - off));
      var bytes := FileRead(c.data, off, fileReadable);
      var zeroFill := if room < |bytes| then 0 else k - |bytes|;
      nn := Min(room, |bytes|) + zeroFill;
      ReadPrefix(c, off, k, fileReadable, Min(room, |bytes|), zeroFill);
      FillBytes(p, at, bytes[..Min(room, |bytes|)], zeroFill);
    }

    static method FillBytes(p: array<Byte>, at: nat, bytes: seq<Byte>, zeroFill: nat)
      requires at + |bytes| + zeroFill <= p.Length
      modifies p
      ensures p[..] == Splice(old(p[..]), at, bytes + Zeros(zeroFill))
    {
      ghost var was := p[..];
      CopyBytes(p, at, bytes);
      CopyBytes(p, at + |bytes|, Zeros(zeroFill));
      SpliceTwice(was, at, bytes, Zeros(zeroFill));
    }

    /** Writes d at offset off; without a disk error, all bytes there is room for
        in the store. */
    method WriteAt(d: seq<Byte>, off0: int, room: nat) returns (n: nat, err: Error)
      requires Valid()
      modifies `blocks
      ensures Valid() && WriteOutcome(old(Contents()), Contents(), d, off0, room, n, err)
    {
      if d == [] {
        return 0, NoError;
      }
      if off0 < 0 || off0 >= size {
        return 0, ShortWrite;
      }
      n := 0;
      var off := off0;
      ghost var was := Contents();
      for i := 0 to |blocks|
        invariant |blocks| == |old(blocks)| && BlocksOk() && n <= room
          && WriteTo(was, Visibles(blocks), d, off0, i, off, n)
      {
        var ok;
        ok, off, n := WriteTurn(d, i, off, n, room, was, off0);
        if !ok {
          return n, IOError;
        }
        if n == |d| {
          return n, NoError;
        }
      }
      assert Visibles(blocks)[..|blocks|] == Visibles(blocks);
      return n, ShortWrite;
    }

    method WriteTurn(d: seq<Byte>, i: nat, off: nat, n: nat, room: nat, ghost was: seq<Byte>, ghost off0: int)
        returns (ok: bool, off': nat, n': nat)
      requires BlocksOk() && i < |blocks| && n <= room && WriteTo(was, Visibles(blocks), d, off0, i, off, n)
      modifies `blocks
      ensures BlocksOk() && |blocks| == |old(blocks)| && |Contents()| == |was| && n' <= room
      ensures !ok ==> n' == room && PutPart(was, Contents(), d, off0, n')
      ensures ok ==> WriteThrough(was, Visibles(blocks), d, off0, i + 1, off', n')
    {
      ghost var vals := Visibles(blocks);
      var b := blocks[i];
      if off >= b.size {
        SkipWrite(was, vals, d, off0, i, off, n);
        return true, off - b.size, n;
      }
      var canWrite := Min(|d| - n, b.size - off);
      var nn := Min(canWrite, room - n);
      OneWritten(blocks, i, off, d[n..n + nn]);
      blocks := blocks[i := WriteBlock(b, off, d[n..n + nn])];
      if nn < canWrite {
        WritePart(was, vals, d, off0, i, off, n, nn);
        return false, 0, n + nn;
      }
      WriteMore(was, vals, d, off0, i, off, n, nn);
      return true, 0, n + nn;
    }
  }

  lemma FileWriteInside(data: seq<Byte>, size: nat, off: nat, d: seq<Byte>)
    requires off + |d| <= size <= |data|
    ensures |FileWrite(data, off, d)| == |data| && FileWrite(data, off, d)[..size] == Splice(data[..size], off, d)
  {
    SpliceIs(data[..size], off, d);
  }

  lemma FileReadInside(data: seq<Byte>, size: nat, off: nat, k: nat, n: nat)
    requires size <= |data| && n <= |FileRead(data, off, k)|
    ensures off <= |data| ==> off + n <= |data| && FileRead(data, off, k)[..n] == data[off..off + n]
    ensures off + k <= size ==> |FileRead(data, off, k)| == k && data[off..off + n] == data[..size][off..off + n]
  {
  }

  /** One file that the system could give its size at once. */
  class SingleFileStore {
    var data: seq<Byte>
    var size: nat

    ghost predicate Valid()
      reads this
    {
      size <= |data|
    }

    ghost function Contents(): seq<Byte>
      reads this
      requires Valid()
    {
      data[..size]
    }

    constructor (blockSize: nat)
      ensures Valid() && Contents() == Zeros(blockSize) && size == |data|
    {
      data, size := Zeros(blockSize), blockSize;
    }

    /** Grows the file to the size asked for, unless that fails.  What was written past the
        old size, if anything, comes into view. */
    method GrowTo(newSize: nat, sized: bool) returns (err: Error)
      requires Valid()
      modifies this
      ensures Valid()
      ensures err == if newSize <= old(size) || sized then NoError else IOError
      ensures size == if err.NoError? then Max(newSize, old(size)) else old(size)
      ensures Contents()[..old(size)] == old(Contents())
      ensures old(size == |data|) ==> size == |data| && Contents() == old(Contents()) + Zeros(size - old(size))
    {
      if newSize <= size {
        return NoError;
      }
      if !sized {
        return IOError;
      }
      data := FileResize(data, newSize);
      size := newSize;
      return NoError;
    }

    /** Reads from the file, which may go on behind the size of the store. */
    method ReadAt(p: array<Byte>, lo: nat, hi: nat, off: int, room: nat) returns (n: nat, err: Error)
      requires Valid() && lo <= hi <= p.Length
      modifies p
      ensures 0 <= off <= |data| ==> GotPart(old(p[..]), p[..], lo, hi, data, off, n)
      ensures 0 <= off && off + (hi - lo) <= size ==>
        ReadOutcome(old(p[..]), p[..], lo, hi, Contents(), off, room, n, err)
    {
      if off < 0 {
        return 0, IOError;
      }
      var bytes := FileRead(data, off, hi - lo);
      n := Min(room, |bytes|);
      CopyBytes(p, lo, bytes[..n]);
      FileReadInside(data, size, off, hi - lo, n);
      err := if n < |bytes| then IOError else if n == hi - lo then NoError else EOF;
    }

    /** Writes to the file, which grows when the write goes past its end. */
    method WriteAt(d: seq<Byte>, off: int, room: nat) returns (n: nat, err: Error)
      requires Valid()
      modifies `data
      ensures Valid() && n <= |d| && (off >= 0 ==> n == Min(|d|, room) && data == FileWrite(old(data), off, d[..n]))
      ensures err == if off >= 0 && n == |d| then NoError else IOError
      ensures 0 <= off && off + |d| <= size ==> WriteOutcome(old(Contents()), Contents(), d, off, room, n, err)
    {
      if off < 0 {
        return 0, IOError;
      }
      n := Min(|d|, room);
      if off + n <= size {
        FileWriteInside(data, size, off, d[..n]);
      }
      data := FileWrite(data, off, d[..n]);
      err := if n == |d| then NoError else IOError;
    }
  }
}

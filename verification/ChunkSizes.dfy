/** How a parallel download cuts its range into chunks: the first chunk is the small
    remainder, but never less than half a part, and the second makes up for it. */
module ChunkSizes {

  /** The number of parts the reader expects. */
  function PartCount(length: nat, part: nat): nat
    requires part >= 1
  {
    if length > part then (length + part - 1) / part else 1
  }

  /** The size given to chunk number id when it is sent. */
  function ChunkSize(length: nat, part: nat, id: nat): int
    requires part >= 1
  {
    var first := length % part;
    var least := part / 2;
    if id == 0 && first > 0 then
      (if first > least then first else least)
    else if id == 1 && 0 < first < least then
      part + first - least
    else
      part
  }

  /** How far into the range chunk number id starts, when every earlier one was sent. */
  function Offset(length: nat, part: nat, id: nat): int
    requires part >= 1
  {
    if id == 0 then 0 else Offset(length, part, id - 1) + ChunkSize(length, part, id - 1)
  }

  /** Every chunk is positive and fits a part, so the block it is given takes it. */
  lemma SizeFits(length: nat, part: nat, id: nat)
    requires part >= 1
    ensures 0 < ChunkSize(length, part, id) <= part
  {
  }

  /** No chunk is less than half a part, none is smaller than the first, and only the first two
      can be less than a whole one: the first is what does not fill a part, if that is at
      least half of one, and the second makes up for it otherwise. */
  lemma SmallOneFirst(length: nat, part: nat, id: nat)
    requires part >= 1
    ensures part / 2 <= ChunkSize(length, part, 0) <= ChunkSize(length, part, id)
    ensures id >= 2 ==> ChunkSize(length, part, id) == part
    ensures (ChunkSize(length, part, 0) + ChunkSize(length, part, 1) - length) % part == 0 || length % part == 0
    ensures length % part >= part / 2 && length % part > 0 ==> ChunkSize(length, part, 0) == length % part
  {
    var q, first := length / part, length % part;
    assert length == q * part + first;
    if 0 < first {
      var a := ChunkSize(length, part, 0) + ChunkSize(length, part, 1) - length;
      assert ChunkSize(length, part, 0) + ChunkSize(length, part, 1) == part + first;
      assert a == (1 - q) * part by {
        assert (1 - q) * part == part - q * part;
      }
      WholeParts(1 - q, part);
    }
  }

  lemma WholeParts(k: int, part: nat)
    requires part >= 1
    ensures (k * part) % part == 0
  {
    var a := k * part;
    var r := a / part;
    assert a == r * part + a % part;
    MulMono(r + 1, if r < k then k else r + 1, part);
    MulMono(k + 1, if k < r then r else k + 1, part);
    assert (r + 1) * part == r * part + part && (k + 1) * part == k * part + part;
  }

  /** From the second chunk boundary on, whole parts are left. */
  lemma {:induction false} WholePartsLeft(length: nat, part: nat, id: nat)
    requires 1 <= part < length && 2 <= id <= PartCount(length, part)
    ensures Offset(length, part, id) == length - (PartCount(length, part) - id) * part
  {
    var n := PartCount(length, part);
    if id == 2 {
      var q, first := length / part, length % part;
      assert length == q * part + first;
      if first == 0 {
        Quotient(q * part + part - 1, part, q);
        assert (n - 2) * part == q * part - 2 * part;
      } else {
        Quotient(q * part + first + part - 1, part, q + 1);
        assert (n - 2) * part == q * part - part;
      }
      assert Offset(length, part, 0) == 0;
      assert Offset(length, part, 1) == ChunkSize(length, part, 0);
    } else {
      WholePartsLeft(length, part, id - 1);
      assert (n - (id - 1)) * part == (n - id) * part + part;
    }
  }

  lemma MulMono(a: int, b: int, c: nat)
    requires a <= b
    ensures a * c <= b * c
  {
  }

  lemma Quotient(a: nat, b: nat, q: nat)
    requires b >= 1 && q * b <= a < q * b + b
    ensures a / b == q
  {
    var r := a / b;
    assert a == r * b + a % b;
    MulMono(r + 1, if r < q then q else r + 1, b);
    MulMono(q + 1, if q < r then r else q + 1, b);
    assert (r + 1) * b == r * b + b && (q + 1) * b == q * b + b;
  }

  lemma AtLeastTwo(length: nat, part: nat)
    requires 1 <= part < length
    ensures PartCount(length, part) >= 2
  {
    var a := length + part - 1;
    assert a == (a / part) * part + a % part;
    MulMono(a / part, if a / part <= 1 then 1 else a / part, part);
  }

  lemma TilesFirstTwo(length: nat, part: nat)
    requires 1 <= part < length
    ensures Offset(length, part, 0) == 0
    ensures 0 < Offset(length, part, 1) < Offset(length, part, 2) <= length
    ensures PartCount(length, part) > 2 ==> Offset(length, part, 2) < length
  {
    AtLeastTwo(length, part);
    WholePartsLeft(length, part, 2);
    SizeFits(length, part, 0);
    SizeFits(length, part, 1);
    assert Offset(length, part, 1) == Offset(length, part, 0) + ChunkSize(length, part, 0);
    var n := PartCount(length, part);
    MulMono(0, n - 2, part);
    MulMono(1, if n > 2 then n - 2 else 1, part);
  }

  lemma TilesLater(length: nat, part: nat, id: nat)
    requires 1 <= part < length && 2 <= id <= PartCount(length, part)
    ensures 0 <= Offset(length, part, id) <= length
    ensures Offset(length, part, id) < length <==> id < PartCount(length, part)
  {
    WholePartsLeft(length, part, id);
    TilesFirstTwo(length, part);
    OffsetGrows(length, part, 2, id);
    var n := PartCount(length, part);
    MulMono(0, n - id, part);
    MulMono(1, if id < n then n - id else 1, part);
  }

  /** Sending chunks until the end of the range is reached sends exactly the expected
      number of parts, one after the other, and they cover the range. */
  lemma Tiles(length: nat, part: nat, id: nat)
    requires 1 <= part < length
    requires id <= PartCount(length, part)
    ensures 0 <= Offset(length, part, id) <= length
    ensures Offset(length, part, id) < length <==> id < PartCount(length, part)
    ensures Offset(length, part, PartCount(length, part)) == length
  {
    AtLeastTwo(length, part);
    TilesFirstTwo(length, part);
    if id >= 2 {
      TilesLater(length, part, id);
    }
    WholePartsLeft(length, part, PartCount(length, part));
  }

  /** A chunk that starts later starts further on. */
  lemma {:induction false} OffsetGrows(length: nat, part: nat, i: nat, j: nat)
    requires part >= 1 && i <= j
    ensures Offset(length, part, i) + (j - i) <= Offset(length, part, j)
  {
    if i < j {
      OffsetGrows(length, part, i, j - 1);
      SizeFits(length, part, j - 1);
    }
  }
}

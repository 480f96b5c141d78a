/**
 * Splitting the data codewords into blocks, appending check bytes to each block, and
 * interleaving the blocks; with the de-interleaver that undoes it.
 */
module Interleave {
  import opened Basics
  import opened ReedSolomon
  import opened Results

  /** How many blocks, how many check bytes in each, and how many codewords in all. */
  datatype Layout = Layout(numBlocks: nat, eccLen: nat, raw: nat) {
    predicate Valid() {
      numBlocks >= 1 && 1 <= eccLen <= 255 && eccLen * numBlocks <= raw
    }

    /** Data bytes of a short block; a long block has one more. */
    function DataLen(): int
      requires Valid()
    {
      raw / numBlocks - eccLen
    }

    function NumShort(): (n: int)
      requires Valid()
      ensures 1 <= n <= numBlocks
    {
      numBlocks - raw % numBlocks
    }

    function BlockLen(j: nat): int
      requires Valid()
    {
      DataLen() + (if j < NumShort() then 0 else 1)
    }

    function BlockStart(j: nat): int
      requires Valid()
    {
      if j == 0 then 0 else BlockStart(j - 1) + BlockLen(j - 1)
    }

    /** The first block with a byte in row `i`: short blocks have none in the padding row. */
    function First(i: nat): (f: int)
      requires Valid()
      ensures 0 <= f <= numBlocks
    {
      if i == DataLen() then NumShort() else 0
    }

    function RowStart(i: nat): int
      requires Valid()
    {
      if i == 0 then 0 else RowStart(i - 1) + numBlocks - First(i - 1)
    }

    function NumRows(): int
      requires Valid()
    {
      raw / numBlocks + 1
    }
  }

  // ----- Sizes -----

  lemma Sizes(l: Layout)
    requires l.Valid()
    ensures l.DataLen() >= 0
    ensures l.numBlocks * (l.DataLen() + l.eccLen) + l.numBlocks - l.NumShort() == l.raw
  {
    var q, r := l.raw / l.numBlocks, l.raw % l.numBlocks;
    assert l.raw == l.numBlocks * q + r;
    assert (q + 1) * l.numBlocks == l.numBlocks * q + l.numBlocks;
    CancelFactor(l.eccLen, q + 1, l.numBlocks);
  }

  lemma {:induction false} BlockStartIs(l: Layout, j: nat)
    requires l.Valid()
    ensures l.BlockStart(j) == j * l.DataLen() + (if j <= l.NumShort() then 0 else j - l.NumShort())
  {
    if j > 0 {
      BlockStartIs(l, j - 1);
      assert j * l.DataLen() == (j - 1) * l.DataLen() + l.DataLen();
    }
  }

  /** The blocks use every data byte exactly once. */
  lemma BlocksCoverData(l: Layout)
    requires l.Valid()
    ensures l.BlockStart(l.numBlocks) == l.raw - l.eccLen * l.numBlocks
  {
    Sizes(l);
    BlockStartIs(l, l.numBlocks);
    assert l.numBlocks * (l.DataLen() + l.eccLen) == l.numBlocks * l.DataLen() + l.numBlocks * l.eccLen;
  }

  lemma {:induction false} BlockStartGrows(l: Layout, j: nat, k: nat)
    requires l.Valid() && j <= k
    ensures 0 <= l.BlockStart(j) <= l.BlockStart(k)
    decreases k
  {
    Sizes(l);
    if j < k {
      BlockStartGrows(l, j, k - 1);
    } else if k > 0 {
      BlockStartGrows(l, j - 1, k - 1);
    }
  }

  lemma {:induction false} RowStartIs(l: Layout, i: nat)
    requires l.Valid()
    ensures l.RowStart(i) == i * l.numBlocks - (if i <= l.DataLen() then 0 else l.NumShort())
  {
    Sizes(l);
    if i > 0 {
      RowStartIs(l, i - 1);
      assert i * l.numBlocks == (i - 1) * l.numBlocks + l.numBlocks;
    }
  }

  /** The rows hold exactly `raw` codewords. */
  lemma RowsCoverCodewords(l: Layout)
    requires l.Valid()
    ensures l.RowStart(l.NumRows()) == l.raw
  {
    Sizes(l);
    RowStartIs(l, l.NumRows());
    assert l.NumRows() == l.DataLen() + l.eccLen + 1;
    assert l.NumRows() * l.numBlocks == l.numBlocks * (l.DataLen() + l.eccLen) + l.numBlocks;
  }

  lemma {:induction false} RowStartGrows(l: Layout, i: nat, k: nat)
    requires l.Valid() && i <= k
    ensures 0 <= l.RowStart(i) <= l.RowStart(k)
    decreases k
  {
    if i < k {
      RowStartGrows(l, i, k - 1);
    } else if k > 0 {
      RowStartGrows(l, i - 1, k - 1);
    }
  }

  // ----- The interleaved sequence -----

  /** The bytes of row `i` in blocks First(i) up to `j`. */
  function RowCells(l: Layout, blocks: seq<Poly>, i: nat, j: nat): (r: Poly)
    requires l.Valid() && j <= |blocks| && forall b :: 0 <= b < |blocks| ==> i < |blocks[b]|
    ensures |r| == if j <= l.First(i) then 0 else j - l.First(i)
  {
    if j <= l.First(i) then [] else RowCells(l, blocks, i, j - 1) + [blocks[j - 1][i]]
  }

  predicate Rectangular(l: Layout, blocks: seq<Poly>)
    requires l.Valid()
  {
    |blocks| == l.numBlocks && forall b :: 0 <= b < |blocks| ==> |blocks[b]| == l.NumRows()
  }

  function Rows(l: Layout, blocks: seq<Poly>, i: nat): (r: Poly)
    requires l.Valid() && Rectangular(l, blocks) && i <= l.NumRows()
    ensures |r| == l.RowStart(i)
  {
    if i == 0 then [] else Rows(l, blocks, i - 1) + RowCells(l, blocks, i - 1, l.numBlocks)
  }

  lemma {:induction false} RowCellsAt(l: Layout, blocks: seq<Poly>, i: nat, j: nat, b: nat)
    requires l.Valid() && j <= |blocks| && forall b :: 0 <= b < |blocks| ==> i < |blocks[b]|
    requires l.First(i) <= b < j
    ensures RowCells(l, blocks, i, j)[b - l.First(i)] == blocks[b][i]
  {
    hide Layout.First;
    if b < j - 1 {
      RowCellsAt(l, blocks, i, j - 1, b);
    }
  }

  /** Where each byte of each block ends up. */
  lemma {:induction false} RowsAt(l: Layout, blocks: seq<Poly>, n: nat, i: nat, b: nat)
    requires l.Valid() && Rectangular(l, blocks) && i < n <= l.NumRows() && l.First(i) <= b < l.numBlocks
    ensures 0 <= l.RowStart(i) + b - l.First(i) < |Rows(l, blocks, n)|
    ensures Rows(l, blocks, n)[l.RowStart(i) + b - l.First(i)] == blocks[b][i]
    decreases n
  {
    hide Layout.First;
    RowStartGrows(l, i, n - 1);
    if i < n - 1 {
      RowsAt(l, blocks, n - 1, i, b);
    } else {
      RowCellsAt(l, blocks, i, l.numBlocks, b);
    }
  }

  // ----- Reading the blocks back -----

  function Cell(l: Layout, flat: Poly, i: nat, b: nat): bv8
    requires l.Valid() && |flat| == l.raw && i < l.NumRows() && l.First(i) <= b < l.numBlocks
  {
    CellInRange(l, i, b);
    flat[l.RowStart(i) + b - l.First(i)]
  }

  lemma CellInRange(l: Layout, i: nat, b: nat)
    requires l.Valid() && i < l.NumRows() && l.First(i) <= b < l.numBlocks
    ensures 0 <= l.RowStart(i) + b - l.First(i) < l.raw
  {
    RowStartGrows(l, i, i + 1);
    RowStartGrows(l, i + 1, l.NumRows());
    RowsCoverCodewords(l);
  }

  /** The data bytes of block `b`. */
  function ReadBlockData(l: Layout, flat: Poly, b: nat): (r: Poly)
    requires l.Valid() && |flat| == l.raw && b < l.numBlocks
    ensures |r| == l.BlockLen(b)
  {
    Sizes(l);
    seq(l.BlockLen(b), i requires 0 <= i < l.BlockLen(b) => Cell(l, flat, i, b))
  }

  /** The check bytes of block `b`. */
  function ReadBlockCheck(l: Layout, flat: Poly, b: nat): (r: Poly)
    requires l.Valid() && |flat| == l.raw && b < l.numBlocks
    ensures |r| == l.eccLen
  {
    Sizes(l);
    seq(l.eccLen, e requires 0 <= e < l.eccLen => Cell(l, flat, l.DataLen() + 1 + e, b))
  }

  /** The data bytes of the first `b` blocks, in order. */
  function ReadData(l: Layout, flat: Poly, b: nat): (r: Poly)
    requires l.Valid() && |flat| == l.raw && b <= l.numBlocks
  {
    if b == 0 then [] else ReadData(l, flat, b - 1) + ReadBlockData(l, flat, b - 1)
  }

  /** The part of `data` that goes into block `b`. */
  function Block(l: Layout, data: Poly, b: nat): (r: Poly)
    requires l.Valid() && |data| == l.raw - l.eccLen * l.numBlocks && b < l.numBlocks
    ensures |r| == l.BlockLen(b)
  {
    BlocksCoverData(l);
    BlockStartGrows(l, b, b + 1);
    BlockStartGrows(l, b + 1, l.numBlocks);
    data[l.BlockStart(b)..l.BlockStart(b + 1)]
  }

  /** The codeword sequence carries `data` and its check bytes, block by block. */
  ghost predicate Carries(l: Layout, flat: Poly, data: Poly, divisor: Poly)
    requires l.Valid() && |divisor| == l.eccLen && |data| == l.raw - l.eccLen * l.numBlocks
  {
    && |flat| == l.raw
    && forall b: nat :: b < l.numBlocks ==>
         && ReadBlockData(l, flat, b) == Block(l, data, b)
         && ReadBlockCheck(l, flat, b) == Remainder(Block(l, data, b), divisor)
  }

  lemma {:induction false} ReadDataPrefix(l: Layout, flat: Poly, data: Poly, divisor: Poly, b: nat)
    requires l.Valid() && |divisor| == l.eccLen && |data| == l.raw - l.eccLen * l.numBlocks
    requires Carries(l, flat, data, divisor) && b <= l.numBlocks
    ensures 0 <= l.BlockStart(b) <= |data| && ReadData(l, flat, b) == data[..l.BlockStart(b)]
  {
    hide Layout.BlockLen, ReadBlockData, ReadBlockCheck, Remainder;
    BlocksCoverData(l);
    BlockStartGrows(l, b, l.numBlocks);
    if b > 0 {
      ReadDataPrefix(l, flat, data, divisor, b - 1);
      BlockStartGrows(l, b - 1, b);
      assert data[..l.BlockStart(b - 1)] + Block(l, data, b - 1) == data[..l.BlockStart(b)];
    }
  }

  /** De-interleaving returns the data codewords. */
  lemma ReadDataRoundTrip(l: Layout, flat: Poly, data: Poly, divisor: Poly)
    requires l.Valid() && |divisor| == l.eccLen && |data| == l.raw - l.eccLen * l.numBlocks
    requires Carries(l, flat, data, divisor)
    ensures ReadData(l, flat, l.numBlocks) == data
  {
    ReadDataPrefix(l, flat, data, divisor, l.numBlocks);
    BlocksCoverData(l);
    assert data[..|data|] == data;
  }

  /** A block with its check bytes, a zero in front of them if it is short. */
  function PaddedBlock(l: Layout, data: Poly, divisor: Poly, b: nat): (r: Poly)
    requires l.Valid() && |divisor| == l.eccLen && |data| == l.raw - l.eccLen * l.numBlocks && b < l.numBlocks
    ensures |r| == l.NumRows()
  {
    Sizes(l);
    Block(l, data, b) + (if b < l.NumShort() then [0] else []) + Remainder(Block(l, data, b), divisor)
  }

  ghost predicate ArePadded(l: Layout, data: Poly, divisor: Poly, blocks: seq<Poly>)
    requires l.Valid() && |divisor| == l.eccLen && |data| == l.raw - l.eccLen * l.numBlocks
  {
    && |blocks| == l.numBlocks
    && forall b: nat :: b < l.numBlocks ==> blocks[b] == PaddedBlock(l, data, divisor, b)
  }

  lemma RowsCarry(l: Layout, data: Poly, divisor: Poly, blocks: seq<Poly>)
    requires l.Valid() && |divisor| == l.eccLen && |data| == l.raw - l.eccLen * l.numBlocks
    requires ArePadded(l, data, divisor, blocks)
    ensures Rectangular(l, blocks)
    ensures Carries(l, Rows(l, blocks, l.NumRows()), data, divisor)
  {
    hide Rows, Remainder, RowCells, Layout.RowStart, Layout.BlockStart;
    Sizes(l);
    RowsCoverCodewords(l);
    var flat := Rows(l, blocks, l.NumRows());
    forall b: nat | b < l.numBlocks
      ensures ReadBlockData(l, flat, b) == Block(l, data, b)
      ensures ReadBlockCheck(l, flat, b) == Remainder(Block(l, data, b), divisor)
    {
      forall i | 0 <= i < l.BlockLen(b)
        ensures Cell(l, flat, i, b) == Block(l, data, b)[i]
      {
        RowsAt(l, blocks, l.NumRows(), i, b);
      }
      forall e | 0 <= e < l.eccLen
        ensures Cell(l, flat, l.DataLen() + 1 + e, b) == Remainder(Block(l, data, b), divisor)[e]
      {
        RowsAt(l, blocks, l.NumRows(), l.DataLen() + 1 + e, b);
      }
    }
  }

  /** The codeword sequence of a symbol. */
  function CodewordsOf(l: Layout, data: Poly): (flat: Poly)
    requires l.Valid() && |data| == l.raw - l.eccLen * l.numBlocks
    ensures |flat| == l.raw
  {
    var divisor := Generator(l.eccLen)[1..];
    var blocks := seq(l.numBlocks, b requires 0 <= b < l.numBlocks => PaddedBlock(l, data, divisor, b));
    RowsCarry(l, data, divisor, blocks);
    RowsCoverCodewords(l);
    Rows(l, blocks, l.NumRows())
  }

  lemma CodewordsCarryData(l: Layout, data: Poly)
    requires l.Valid() && |data| == l.raw - l.eccLen * l.numBlocks
    ensures Carries(l, CodewordsOf(l, data), data, Generator(l.eccLen)[1..])
    ensures ReadData(l, CodewordsOf(l, data), l.numBlocks) == data
  {
    hide Carries, PaddedBlock, Rows;
    var divisor := Generator(l.eccLen)[1..];
    var blocks := seq(l.numBlocks, b requires 0 <= b < l.numBlocks => PaddedBlock(l, data, divisor, b));
    RowsCarry(l, data, divisor, blocks);
    ReadDataRoundTrip(l, CodewordsOf(l, data), data, divisor);
  }

  // ----- Where every byte goes, in closed form -----

  /** The data is shared out evenly, the shorter blocks first. */
  lemma EvenShares(l: Layout, j: nat)
    requires l.Valid() && j < l.numBlocks
    ensures var data := l.raw - l.eccLen * l.numBlocks;
            l.BlockLen(j) == data / l.numBlocks + (if j < l.numBlocks - data % l.numBlocks then 0 else 1)
  {
    Sizes(l);
    var data, d, r := l.raw - l.eccLen * l.numBlocks, l.DataLen(), l.numBlocks - l.NumShort();
    assert l.numBlocks * (d + l.eccLen) == d * l.numBlocks + l.eccLen * l.numBlocks;
    assert data == d * l.numBlocks + r;
    QuotientIs(data, l.numBlocks, d, r);
  }

  lemma QuotientIs(k: nat, n: nat, q: nat, r: nat)
    requires k == q * n + r && r < n
    ensures k / n == q && k % n == r
  {
    assert k == n * (k / n) + k % n;
    assert (q - k / n) * n == k % n - r;
    CancelFactor(k / n, q + 1, n);
    CancelFactor(q, k / n + 1, n);
  }

  /** Byte `i` of every block, block after block, then the next; the last byte of the longer blocks by themselves. */
  lemma DataByteAt(l: Layout, data: Poly, b: nat, i: nat)
    requires l.Valid() && |data| == l.raw - l.eccLen * l.numBlocks && b < l.numBlocks && i < l.BlockLen(b)
    ensures var at := if i < |data| / l.numBlocks then i * l.numBlocks + b
                      else i * l.numBlocks + b - (l.numBlocks - |data| % l.numBlocks);
            0 <= at < l.raw && CodewordsOf(l, data)[at] == Block(l, data, b)[i]
  {
    hide CodewordsOf, Generator, Remainder, Layout.RowStart, ReadData, Block;
    EvenShares(l, b);
    EvenShares(l, 0);
    Sizes(l);
    var flat := CodewordsOf(l, data);
    CodewordsCarryData(l, data);
    assert ReadBlockData(l, flat, b) == Block(l, data, b);
    RowStartIs(l, i);
    CellInRange(l, i, b);
    assert Cell(l, flat, i, b) == ReadBlockData(l, flat, b)[i];
    ShortCount(l);
  }

  lemma ShortCount(l: Layout)
    requires l.Valid()
    ensures var data := l.raw - l.eccLen * l.numBlocks;
            data / l.numBlocks == l.DataLen() && l.numBlocks - data % l.numBlocks == l.NumShort()
  {
    Sizes(l);
    var data, d, r := l.raw - l.eccLen * l.numBlocks, l.DataLen(), l.numBlocks - l.NumShort();
    assert l.numBlocks * (d + l.eccLen) == d * l.numBlocks + l.eccLen * l.numBlocks;
    QuotientIs(data, l.numBlocks, d, r);
  }

  /** After all data bytes, check byte `k` of every block, block after block, then the next. */
  lemma CheckByteAt(l: Layout, data: Poly, b: nat, k: nat)
    requires l.Valid() && |data| == l.raw - l.eccLen * l.numBlocks && b < l.numBlocks && k < l.eccLen
    ensures var at := |data| + k * l.numBlocks + b;
            && 0 <= at < l.raw
            && |Generator(l.eccLen)[1..]| == l.eccLen
            && CodewordsOf(l, data)[at] == Remainder(Block(l, data, b), Generator(l.eccLen)[1..])[k]
  {
    hide CodewordsOf, Generator, Remainder, Layout.RowStart, ReadData, Block;
    Sizes(l);
    var flat := CodewordsOf(l, data);
    CodewordsCarryData(l, data);
    var i := l.DataLen() + 1 + k;
    CheckRow(l, k);
    CellInRange(l, i, b);
    assert ReadBlockCheck(l, flat, b) == Remainder(Block(l, data, b), Generator(l.eccLen)[1..]);
    assert Cell(l, flat, i, b) == ReadBlockCheck(l, flat, b)[k];
  }

  lemma CheckRow(l: Layout, k: nat)
    requires l.Valid()
    ensures l.DataLen() >= 0
    ensures l.RowStart(l.DataLen() + 1 + k) == l.raw - l.eccLen * l.numBlocks + k * l.numBlocks
  {
    hide Layout.RowStart;
    Sizes(l);
    var d := l.DataLen();
    RowStartIs(l, d + 1 + k);
    assert (d + 1 + k) * l.numBlocks == d * l.numBlocks + l.numBlocks + k * l.numBlocks;
    assert l.numBlocks * (d + l.eccLen) == d * l.numBlocks + l.eccLen * l.numBlocks;
  }

  lemma PaddedIsUnique(l: Layout, data: Poly, blocks: seq<Poly>)
    requires l.Valid() && |data| == l.raw - l.eccLen * l.numBlocks
    requires ArePadded(l, data, Generator(l.eccLen)[1..], blocks)
    ensures Rectangular(l, blocks) && CodewordsOf(l, data) == Rows(l, blocks, l.NumRows())
  {
    hide Rows, PaddedBlock;
    var divisor := Generator(l.eccLen)[1..];
    assert blocks == seq(l.numBlocks, b requires 0 <= b < l.numBlocks => PaddedBlock(l, data, divisor, b));
  }

  // ----- The method -----

  method SplitBlocks(l: Layout, data: Poly, rsDiv: Poly) returns (blocks: seq<Poly>)
    requires l.Valid() && |rsDiv| == l.eccLen && |data| == l.raw - l.eccLen * l.numBlocks
    ensures ArePadded(l, data, rsDiv, blocks)
  {
    hide Remainder, Layout.NumShort, Layout.DataLen;
    blocks := [];
    var k := 0;
    for i := 0 to l.numBlocks
      invariant |blocks| == i && k == l.BlockStart(i)
      invariant forall b: nat :: b < i ==> blocks[b] == PaddedBlock(l, data, rsDiv, b)
    {
      BlocksCoverData(l);
      BlockStartGrows(l, i, i + 1);
      BlockStartGrows(l, i + 1, l.numBlocks);
      var dat := data[k..k + l.DataLen() + (if i < l.NumShort() then 0 else 1)];
      assert dat == Block(l, data, i);
      k := k + |dat|;
      var ecc := ComputeRemainder(dat, rsDiv);
      if i < l.NumShort() {
        dat := dat + [0];
      }
      dat := dat + ecc;
      blocks := blocks + [dat];
    }
  }

  /** The codewords of a symbol; the length assertion of the source never fires. */
  method AddEccAndInterleave(l: Layout, data: Poly) returns (r: Result<Poly>)
    requires l.Valid()
    ensures r.Ok? <==> |data| == l.raw - l.eccLen * l.numBlocks
    ensures r.Err? ==> r.error == InvalidArgument
    ensures r.Ok? ==> r.value == CodewordsOf(l, data)
  {
    hide Generator, Remainder, ArePadded, CodewordsOf;
    if |data| != l.raw - l.eccLen * l.numBlocks {
      return Err(InvalidArgument);
    }
    var divisor := ComputeDivisor(l.eccLen);
    var rsDiv := divisor.value;
    assert Generator(l.eccLen)[1..] == rsDiv;
    var blocks := SplitBlocks(l, data, rsDiv);
    PaddedIsUnique(l, data, blocks);
    var result: Poly := [];
    for i := 0 to l.NumRows()
      invariant result == Rows(l, blocks, i)
    {
      for j := 0 to |blocks|
        invariant result == Rows(l, blocks, i) + RowCells(l, blocks, i, j)
      {
        if i != l.DataLen() || j >= l.NumShort() {
          result := result + [blocks[j][i]];
        }
      }
    }
    RowsCoverCodewords(l);
    assert |result| == l.raw;
    return Ok(result);
  }
}

/** The distributed matrix of chirp_matrix.c: its layout over several files and the row, range and
    column transfers. */
module Matrix {
  import opened FileBytes
  import opened Strided
  import opened Reli

  const GIGABYTE := 1024 * 1024 * 1024

  const INT_MAX := 0x7fff_ffff

  /** The longest transfer one request may ask of the server. */
  const REQUEST_LIMIT := 16 * 1024 * 1024

  datatype Layout = Layout(width: nat, height: nat, elementSize: nat, nfiles: nat)

  predicate WellFormed(l: Layout) { l.width > 0 && l.height > 0 && l.elementSize > 0 && l.nfiles > 0 }

  function CeilDiv(a: nat, b: nat): nat
    requires b > 0
  {
    if a % b != 0 then a / b + 1 else a / b
  }

  function RowsPerFile(l: Layout): nat
    requires l.nfiles > 0
  {
    CeilDiv(l.height, l.nfiles)
  }

  function RowLength(l: Layout): nat { l.width * l.elementSize }

  function FileSize(nfiles: nat, width: nat, height: nat, elementSize: nat): nat
    requires nfiles > 0
  {
    CeilDiv(height, nfiles) * (width * elementSize)
  }

  // ---------------------------------------------------------------------- the file count

  lemma CeilDivBounds(a: nat, b: nat)
    requires b > 0
    ensures a > 0 ==> CeilDiv(a, b) >= 1
    ensures a <= b ==> CeilDiv(a, b) <= 1
    ensures b * CeilDiv(a, b) >= a
  {
    var q, r := a / b, a % b;
    assert a == b * q + r;
    if a < b { assert q == 0; }
    if r != 0 { assert b * (q + 1) == b * q + b; }
  }

  /** The doubling loop of chirp_matrix_create. It stops at the first doubling of the host count
      whose files are small enough, which exists because a single row fits in a file. */
  method FileCount(nhosts: nat, width: nat, height: nat, elementSize: nat) returns (nfiles: nat, ghost doublings: nat)
    requires nhosts > 0
    requires height == 0 || width * elementSize <= GIGABYTE
    ensures nfiles > 0 && FileSize(nfiles, width, height, elementSize) <= GIGABYTE
    ensures nfiles == Doubled(nhosts, doublings)
    ensures forall k: nat :: k < doublings ==> FileSize(Doubled(nhosts, k), width, height, elementSize) > GIGABYTE
    ensures nfiles == nhosts || nfiles < 2 * height
    ensures height <= 0x4000_0000 && nhosts <= INT_MAX ==> nfiles <= INT_MAX
  {
    nfiles, doublings := nhosts, 0;
    while true
      invariant nfiles == Doubled(nhosts, doublings)
      invariant nfiles == nhosts || nfiles < 2 * height
      invariant forall k: nat :: k < doublings ==> FileSize(Doubled(nhosts, k), width, height, elementSize) > GIGABYTE
      decreases 2 * height - nfiles
    {
      var rows := height / nfiles;
      if height % nfiles != 0 { rows := rows + 1; }
      var fileSize := rows * (width * elementSize);
      if fileSize > GIGABYTE {
        if height <= nfiles { EnoughFiles(nfiles, width, height, elementSize); }
        nfiles, doublings := nfiles * 2, doublings + 1;
      } else {
        break;
      }
    }
  }

  function Doubled(n: nat, k: nat): (r: nat)
    ensures n > 0 ==> r > 0
  {
    if k == 0 then n else Doubled(n, k - 1) * 2
  }

  /** As long as a row fits in a file, the product that the loop computes fits in 64 bits. */
  lemma FileSizeFits(nfiles: nat, width: nat, height: nat, elementSize: nat)
    requires nfiles > 0 && height <= INT_MAX && width * elementSize <= GIGABYTE
    ensures FileSize(nfiles, width, height, elementSize) <= 0x7fff_ffff_ffff_ffff
  {
    var rows, row := CeilDiv(height, nfiles), width * elementSize;
    CeilDivAtMost(height, nfiles);
    ProductAtMost(rows, row, INT_MAX, GIGABYTE);
  }

  lemma ProductAtMost(a: nat, b: nat, c: nat, d: nat)
    requires a <= c && b <= d
    ensures a * b <= c * d
  {
    assert a * d == a * b + a * (d - b);
    assert c * d == a * d + (c - a) * d;
  }

  lemma CeilDivAtMost(a: nat, b: nat)
    requires b > 0
    ensures CeilDiv(a, b) <= a
  {
    var q, r := a / b, a % b;
    assert a == q * b + r;
    Stretch(q, b);
  }

  /** With a file for every row nothing is left to split. */
  lemma EnoughFiles(nfiles: nat, width: nat, height: nat, elementSize: nat)
    requires nfiles > 0 && (height == 0 || width * elementSize <= GIGABYTE) && height <= nfiles
    ensures FileSize(nfiles, width, height, elementSize) <= GIGABYTE
  {
    CeilDivBounds(height, nfiles);
    var rows, row := CeilDiv(height, nfiles), width * elementSize;
    if rows == 0 {
      assert rows * row == 0;
    } else {
      assert rows * row == row;
    }
  }

  /** Otherwise no number of files is enough, and the loop cannot end. */
  lemma NeverEnoughFiles(nfiles: nat, width: nat, height: nat, elementSize: nat)
    requires nfiles > 0 && height > 0 && width * elementSize > GIGABYTE
    ensures FileSize(nfiles, width, height, elementSize) > GIGABYTE
  {
    CeilDivBounds(height, nfiles);
    Grow(CeilDiv(height, nfiles), width * elementSize);
  }

  lemma Grow(rows: nat, row: nat)
    requires rows >= 1
    ensures rows * row >= row
  {
    assert rows * row == (rows - 1) * row + row;
  }

  // ---------------------------------------------------------------------- the layout

  function FileOf(l: Layout, i: nat): nat
    requires WellFormed(l)
  {
    RowsPositive(l);
    i / RowsPerFile(l)
  }

  /** Where byte `q` of row `i` lies in its file. */
  function PlaceOf(l: Layout, i: nat, q: nat): nat
    requires WellFormed(l)
  {
    RowsPositive(l);
    i % RowsPerFile(l) * RowLength(l) + q
  }

  lemma RowsPositive(l: Layout)
    requires WellFormed(l)
    ensures RowsPerFile(l) > 0 && RowLength(l) > 0
    ensures l.height <= l.nfiles * RowsPerFile(l)
  {
    CeilDivBounds(l.height, l.nfiles);
    Grow(l.width, l.elementSize);
  }

  lemma SameProduct(n: nat, a: nat, q: nat, b: nat, r: nat)
    requires q < n && r < n && a * n + q == b * n + r
    ensures a == b && q == r
  {
    if a < b { assert b * n == a * n + (b - a) * n; Grow(b - a, n); }
    if b < a { assert a * n == b * n + (a - b) * n; Grow(a - b, n); }
  }

  lemma ProductBelow(n: nat, a: nat, q: nat, m: nat)
    requires q < n && a < m
    ensures a * n + q < m * n
  {
    assert m * n == a * n + (m - a) * n;
    Grow(m - a, n);
  }

  lemma QuotientBelow(i: nat, rows: nat, m: nat)
    requires rows > 0 && i < m * rows
    ensures i / rows < m && i == i / rows * rows + i % rows
  {
    var f := i / rows;
    assert i == rows * f + i % rows;
    assert f >= m ==> f * rows >= m * rows;
  }

  lemma RowInFile(l: Layout, i: nat)
    requires WellFormed(l) && i < l.nfiles * RowsPerFile(l)
    ensures FileOf(l, i) < l.nfiles
    ensures i == FileOf(l, i) * RowsPerFile(l) + i % RowsPerFile(l)
  {
    RowsPositive(l);
    QuotientBelow(i, RowsPerFile(l), l.nfiles);
  }

  /** No two bytes of the matrix share a place. */
  lemma LayoutOneToOne(l: Layout, i: nat, q: nat, i': nat, q': nat)
    requires WellFormed(l) && q < RowLength(l) && q' < RowLength(l)
    requires FileOf(l, i) == FileOf(l, i') && PlaceOf(l, i, q) == PlaceOf(l, i', q')
    ensures i == i' && q == q'
  {
    RowsPositive(l);
    SameProduct(RowLength(l), i % RowsPerFile(l), q, i' % RowsPerFile(l), q');
    var rows := RowsPerFile(l);
    assert i == rows * (i / rows) + i % rows;
    assert i' == rows * (i' / rows) + i' % rows;
  }

  /** Every byte of a row has its place within the gigabyte of an existing file. */
  lemma LayoutFits(l: Layout, i: nat, q: nat)
    requires WellFormed(l) && FileSize(l.nfiles, l.width, l.height, l.elementSize) <= GIGABYTE
    requires i < l.height && q < RowLength(l)
    ensures FileOf(l, i) < l.nfiles && PlaceOf(l, i, q) < GIGABYTE
  {
    RowsPositive(l);
    RowInFile(l, i);
    ProductBelow(RowLength(l), i % RowsPerFile(l), q, RowsPerFile(l));
  }

  /** The offset chirp_matrix_get computes for column `j`, with its intermediate results, stays
      below a gigabyte, so none of its products wraps around. */
  lemma OffsetFits(l: Layout, i: nat, j: nat)
    requires WellFormed(l) && FileSize(l.nfiles, l.width, l.height, l.elementSize) <= GIGABYTE
    requires i < l.height && j < l.width
    ensures RowsPerFile(l) > 0
    ensures 0 <= i % RowsPerFile(l) * l.width + j < GIGABYTE
    ensures (i % RowsPerFile(l) * l.width + j) * l.elementSize == PlaceOf(l, i, j * l.elementSize)
    ensures j * l.elementSize + l.elementSize <= RowLength(l)
    ensures (i % RowsPerFile(l) * l.width + j) * l.elementSize + l.elementSize <= GIGABYTE
  {
    RowsPositive(l);
    var r := i % RowsPerFile(l);
    ColumnInRow(l, j);
    LayoutFits(l, i, j * l.elementSize + l.elementSize - 1);
    OffsetOf(r, l.width, j, l.elementSize);
    Stretch(r * l.width + j, l.elementSize);
  }

  lemma Stretch(a: nat, e: nat)
    requires e > 0
    ensures a <= a * e
  {
    assert a * e == a + a * (e - 1);
  }

  lemma OffsetOf(r: nat, width: nat, j: nat, e: nat)
    ensures (r * width + j) * e == r * (width * e) + j * e
  {
  }

  lemma ColumnInRow(l: Layout, j: nat)
    requires j < l.width && l.elementSize > 0
    ensures 0 <= j * l.elementSize && j * l.elementSize + l.elementSize <= RowLength(l)
  {
    ProductBelow(l.elementSize, j, l.elementSize - 1, l.width);
  }

  /** The buffer offsets of a column are bounded by the last of them, and by nothing smaller. */
  lemma ColumnOffsetsFit(l: Layout)
    requires WellFormed(l)
    ensures (forall f: nat :: f < l.nfiles ==> Index(f, ColumnLength(l), 0) <= INT_MAX)
       <==> ColumnFits(l)
  {
    forall f: nat | f < l.nfiles ensures Index(f, ColumnLength(l), 0) <= Index(l.nfiles - 1, ColumnLength(l), 0) {
      IndexGrows(f, l.nfiles - 1, ColumnLength(l));
    }
  }

  predicate ColumnFits(l: Layout)
    requires l.nfiles > 0
  {
    Index(l.nfiles - 1, ColumnLength(l), 0) <= INT_MAX
  }

  lemma IndexGrows(a: nat, b: nat, length: nat)
    requires a <= b
    ensures Index(a, length, 0) <= Index(b, length, 0)
  {
    if length > 0 && a < b { ProductBelow(length, a, length - 1, b); }
  }

  /** The product that the range operations compute as a buffer offset in row `j`, and as their result after the
      last row. */
  function RangeOffset(j: nat, width: nat, elementSize: nat): nat { j * width * elementSize }

  lemma RangeOffsetIs(j: nat, width: nat, elementSize: nat)
    ensures RangeOffset(j, width, elementSize) == Index(j, width * elementSize, 0)
  {
    OffsetOf(j, width, 0, elementSize);
  }

  /** The buffer offsets of a range fit exactly when the last one does; the result needs one row more. */
  lemma RangeOffsetsFit(width: nat, height: nat, elementSize: nat)
    requires height > 0
    ensures (forall j: nat :: j < height ==> RangeOffset(j, width, elementSize) <= INT_MAX)
       <==> RangeOffset(height - 1, width, elementSize) <= INT_MAX
    ensures RangeOffset(height, width, elementSize) <= INT_MAX ==>
             RangeOffset(height - 1, width, elementSize) <= INT_MAX
  {
    forall j: nat | j < height ensures RangeOffset(j, width, elementSize) <= RangeOffset(height - 1, width,
        elementSize) {
      RangeOffsetGrows(j, height - 1, width, elementSize);
    }
    RangeOffsetGrows(height - 1, height, width, elementSize);
  }

  lemma RangeOffsetGrows(a: nat, b: nat, width: nat, elementSize: nat)
    requires a <= b
    ensures RangeOffset(a, width, elementSize) <= RangeOffset(b, width, elementSize)
  {
    RangeOffsetIs(a, width, elementSize);
    RangeOffsetIs(b, width, elementSize);
    IndexGrows(a, b, width * elementSize);
  }

  /** A matrix that passes the size test, and whose column buffer and whole range do not fit. */
  lemma BuffersOverflow()
    ensures var l := Layout(1, 0x4000_0000, 8, 8);
            && FileSize(l.nfiles, l.width, l.height, l.elementSize) <= GIGABYTE
            && !ColumnFits(l)
            && RangeOffset(l.height - 1, l.width, l.elementSize) > INT_MAX
  {
    var l := Layout(1, 0x4000_0000, 8, 8);
    assert RowsPerFile(l) == 0x0800_0000;
  }

  // ---------------------------------------------------------------------- strided cells

  function Index(row: nat, length: nat, q: nat): nat { row * length + q }

  /** Byte `at` of a strided read is there, and is the byte at `place` behind the offset, exactly if the length
      reaches `need` and the file its place. */
  ghost predicate Returns(s: Bytes, length: int, stride: nat, skip: nat, offset: nat, at: nat, need: int, place: nat)
    requires stride > 0
  {
    var all := Gather(s, length, stride, skip, offset);
    && (at < |all| <==> need <= length && offset + place < |s|)
    && (at < |all| ==> all[at] == At(s, offset + place))
  }

  lemma ReturnsFirst(s: Bytes, length: int, stride: nat, skip: nat, offset: nat, b: nat)
    requires 0 < stride <= skip && b < stride
    ensures Returns(s, length, stride, skip, offset, b, stride, b)
  {
    var chunk := ReadAt(s, offset, stride);
    assert b < |chunk| <==> offset + b < |s|;
  }

  lemma ReturnsNext(s: Bytes, length: int, stride: nat, skip: nat, offset: nat, at: nat, need: int, place: nat)
    requires 0 < stride <= skip && need >= 0
    requires Returns(s, length - stride, stride, skip, offset + skip, at, need, place)
    ensures Returns(s, length, stride, skip, offset, at + stride, need + stride, place + skip)
  {
    var chunk := ReadAt(s, offset, stride);
    assert |chunk| < stride ==> |s| < offset + stride;
  }

  /** Which bytes of chunk `k` a strided read returns. */
  lemma {:induction false} GatherCell(s: Bytes, length: int, stride: nat, skip: nat, offset: nat, k: nat, b: nat)
    requires 0 < stride <= skip && b < stride
    ensures 0 <= k * stride && 0 <= k * skip
    ensures Returns(s, length, stride, skip, offset, k * stride + b, (k + 1) * stride, k * skip + b)
    decreases k
  {
    if k == 0 {
      ReturnsFirst(s, length, stride, skip, offset, b);
    } else {
      GatherCell(s, length - stride, stride, skip, offset + skip, k - 1, b);
      NextChunk(k, stride);
      NextChunk(k, skip);
      ReturnsNext(s, length, stride, skip, offset, (k - 1) * stride + b, k * stride, (k - 1) * skip + b);
    }
  }

  lemma NextChunk(k: nat, n: nat)
    requires k > 0
    ensures k * n == (k - 1) * n + n && (k + 1) * n == k * n + n && k * n >= n
  {
    Grow(k, n);
  }

  /** A strided write of chunks that lie in columns `c` to `c + stride` of rows of length `skip`, seen
      at column `q` of row `r`. */
  lemma ScatterCell(s: Bytes, data: Bytes, stride: nat, skip: nat, c: nat, r: nat, q: nat)
    requires 0 < stride && c + stride <= skip && q < skip
    ensures At(Scatter(s, data, stride, skip, c), Index(r, skip, q))
         == if c <= q < c + stride && Index(r, stride, q - c) < |data| then data[Index(r, stride, q - c)]
            else At(s, Index(r, skip, q))
  {
    if c <= q < c + stride && Index(r, stride, q - c) < |data| {
      SlotClosedForm(r, q - c, stride, skip, c);
      ScatterByte(s, data, stride, skip, c, Index(r, stride, q - c));
    } else {
      forall z: nat | z < |data| ensures Slot(z, stride, skip, c) != Index(r, skip, q) {
        SlotElsewhere(z, stride, skip, c, r, q);
      }
      ScatterKeeps(s, data, stride, skip, c, Index(r, skip, q));
    }
  }

  lemma SlotElsewhere(z: nat, stride: nat, skip: nat, c: nat, r: nat, q: nat)
    requires 0 < stride && c + stride <= skip && q < skip
    ensures Slot(z, stride, skip, c) == Index(r, skip, q) ==> c <= q < c + stride && Index(r, stride, q - c) == z
  {
    var k, b := z / stride, z % stride;
    assert z == Index(k, stride, b);
    SlotClosedForm(k, b, stride, skip, c);
    if Index(k, skip, c + b) == Index(r, skip, q) {
      SameProduct(skip, k, c + b, r, q);
    }
  }

  // ---------------------------------------------------------------------- the matrix

  predicate Holds(l: Layout, files: seq<Bytes>) { WellFormed(l) && |files| == l.nfiles }

  /** Rows of the matrix, counting those that only fill up the last files. */
  predicate IsRow(l: Layout, i: int) { l.nfiles > 0 && 0 <= i < Index(l.nfiles, RowsPerFile(l), 0) }

  /** Byte `q` of row `i`; what was never written is zero. */
  function Byte(l: Layout, files: seq<Bytes>, i: nat, q: nat): byte
    requires Holds(l, files) && IsRow(l, i)
  {
    RowInFile(l, i);
    At(files[FileOf(l, i)], PlaceOf(l, i, q))
  }

  /** What chirp_matrix_get reads for a cell. */
  function CellRead(l: Layout, files: seq<Bytes>, i: nat, j: nat): Bytes
    requires Holds(l, files) && IsRow(l, i)
  {
    RowInFile(l, i);
    ReadAt(files[FileOf(l, i)], PlaceOf(l, i, j * l.elementSize), Min(l.elementSize, REQUEST_LIMIT))
  }

  /** A write of `data` behind byte `x` of row `i`. */
  function RowWritten(l: Layout, files: seq<Bytes>, i: nat, x: nat, data: Bytes): (after: seq<Bytes>)
    requires Holds(l, files) && IsRow(l, i)
    ensures Holds(l, after)
  {
    RowInFile(l, i);
    files[FileOf(l, i) := WriteAt(files[FileOf(l, i)], PlaceOf(l, i, x), data)]
  }

  lemma RowWrittenByte(l: Layout, files: seq<Bytes>, i: nat, x: nat, data: Bytes, i': nat, q: nat)
    requires Holds(l, files) && IsRow(l, i) && IsRow(l, i') && x + |data| <= RowLength(l) && q < RowLength(l)
    ensures Byte(l, RowWritten(l, files, i, x, data), i', q)
         == if i' == i && x <= q < x + |data| then data[q - x] else Byte(l, files, i', q)
  {
    RowInFile(l, i);
    RowInFile(l, i');
    if FileOf(l, i') == FileOf(l, i) && PlaceOf(l, i, x) <= PlaceOf(l, i', q) < PlaceOf(l, i, x) + |data| {
      var d := PlaceOf(l, i', q) - PlaceOf(l, i, x);
      LayoutOneToOne(l, i', q, i, x + d);
    }
  }

  /** `after` is `before` with bytes `x` to `x + length` of the rows `y` to `y + count` taken from
      `data`, row by row. */
  ghost predicate RangeSet(l: Layout, before: seq<Bytes>, after: seq<Bytes>, x: nat, length: nat, y: nat, count: nat,
      data: Bytes)
    requires Holds(l, before) && Holds(l, after)
  {
    forall i: nat, q: nat | IsRow(l, i) && q < RowLength(l) ::
      Byte(l, after, i, q) == RangeByte(l, before, x, length, y, count, data, i, q)
  }

  function RangeByte(l: Layout, before: seq<Bytes>, x: nat, length: nat, y: nat, count: nat, data: Bytes, i: nat,
      q: nat): byte
    requires Holds(l, before) && IsRow(l, i)
  {
    if y <= i < y + count && x <= q < x + length then At(data, Index(i - y, length, q - x)) else Byte(l, before, i, q)
  }

  ghost predicate RangeGot(l: Layout, files: seq<Bytes>, x: nat, length: nat, y: nat, count: nat, data: Bytes)
    requires Holds(l, files)
  {
    forall r: nat, q: nat | r < count && q < length && IsRow(l, y + r) ::
      At(data, Index(r, length, q)) == Byte(l, files, y + r, x + q)
  }

  /** The files hold bytes up to `end` of the rows. */
  ghost predicate RangeHeld(l: Layout, files: seq<Bytes>, end: nat, y: nat, count: nat)
    requires Holds(l, files)
  {
    forall i: nat | y <= i < y + count && IsRow(l, i) :: RowHeld(l, files, i, end)
  }

  predicate RowHeld(l: Layout, files: seq<Bytes>, i: nat, end: nat)
    requires Holds(l, files) && IsRow(l, i)
  {
    RowInFile(l, i);
    PlaceOf(l, i, end) <= |files[FileOf(l, i)]|
  }

  /** `piece` is row `row` of `data`. */
  ghost predicate RowOf(data: Bytes, row: nat, length: nat, piece: Bytes)
  {
    |piece| == length && forall q: nat :: q < length ==> piece[q] == At(data, Index(row, length, q))
  }

  lemma RangeSetStep(l: Layout, before: seq<Bytes>, files: seq<Bytes>, x: nat, length: nat, y: nat, count: nat,
      data: Bytes, piece: Bytes)
    requires Holds(l, before) && Holds(l, files) && IsRow(l, y + count) && x + length <= RowLength(l)
    requires RangeSet(l, before, files, x, length, y, count, data) && RowOf(data, count, length, piece)
    ensures RangeSet(l, before, RowWritten(l, files, y + count, x, piece), x, length, y, count + 1, data)
  {
    var after := RowWritten(l, files, y + count, x, piece);
    forall i: nat, q: nat | IsRow(l, i) && q < RowLength(l)
      ensures Byte(l, after, i, q) == RangeByte(l, before, x, length, y, count + 1, data, i, q)
    {
      assert Byte(l, files, i, q) == RangeByte(l, before, x, length, y, count, data, i, q);
      RangeSetByte(l, before, files, x, length, y, count, data, piece, i, q);
    }
  }

  lemma RangeSetByte(l: Layout, before: seq<Bytes>, files: seq<Bytes>, x: nat, length: nat, y: nat, count: nat,
      data: Bytes, piece: Bytes, i: nat, q: nat)
    requires Holds(l, before) && Holds(l, files) && IsRow(l, y + count) && x + length <= RowLength(l)
    requires RowOf(data, count, length, piece) && IsRow(l, i) && q < RowLength(l)
    requires Byte(l, files, i, q) == RangeByte(l, before, x, length, y, count, data, i, q)
    ensures Byte(l, RowWritten(l, files, y + count, x, piece), i, q)
              == RangeByte(l, before, x, length, y, count + 1, data, i, q)
  {
    RowWrittenByte(l, files, y + count, x, piece, i, q);
  }

  lemma SliceIsRow(data: Bytes, row: nat, length: nat, start: nat)
    requires start == Index(row, length, 0) && start + length <= |data|
    ensures RowOf(data, row, length, data[start..start + length])
  {
  }

  lemma RangeGotStep(l: Layout, files: seq<Bytes>, x: nat, length: nat, y: nat, count: nat, data: Bytes, piece: Bytes)
    requires Holds(l, files) && IsRow(l, y + count) && RangeGot(l, files, x, length, y, count, data)
    requires |data| == Index(count, length, 0) && |piece| == length
    requires forall q: nat | q < length :: At(piece, q) == Byte(l, files, y + count, x + q)
    ensures RangeGot(l, files, x, length, y, count + 1, data + piece)
    ensures |data + piece| == Index(count + 1, length, 0)
  {
    NextChunk(count + 1, length);
    forall r: nat, q: nat | r < count + 1 && q < length && IsRow(l, y + r)
      ensures At(data + piece, Index(r, length, q)) == Byte(l, files, y + r, x + q)
    {
      if r < count {
        ProductBelow(length, r, q, count);
        assert At(data, Index(r, length, q)) == Byte(l, files, y + r, x + q);
      } else {
        assert At(piece, q) == Byte(l, files, y + count, x + q);
      }
    }
  }

  // ---------------------------------------------------------------------- columns

  function ColumnLength(l: Layout): nat
    requires l.nfiles > 0
  {
    RowsPerFile(l) * l.elementSize
  }

  /** The strided read of column `j` from one file. */
  function ColumnRead(l: Layout, file: Bytes, j: nat): Bytes
    requires WellFormed(l)
  {
    Gather(file, Min(ColumnLength(l), REQUEST_LIMIT), l.elementSize, RowLength(l), j * l.elementSize)
  }

  /** The strided write of column `j` to file `f`, from its part of `data`. */
  function ColumnWrite(l: Layout, f: nat, j: nat, data: Bytes): Request
    requires WellFormed(l) && Index(f, ColumnLength(l), 0) + ColumnLength(l) <= |data|
  {
    var start := Index(f, ColumnLength(l), 0);
    SwriteRequest(data[start..start + ColumnLength(l)], l.elementSize, RowLength(l), j * l.elementSize)
  }

  /** Whether the row is among those that one request reaches. */
  predicate InRequest(l: Layout, i: nat)
    requires WellFormed(l)
  {
    RowsPositive(l);
    (i % RowsPerFile(l) + 1) * l.elementSize <= REQUEST_LIMIT
  }

  lemma {:induction false} WholePartChunk(n: nat, stride: nat, k: nat, b: nat)
    requires b < stride
    ensures k * stride + b < WholePart(n, stride) <==> (k + 1) * stride <= n
    decreases k
  {
    NextChunk(k + 1, stride);
    if k > 0 {
      NextChunk(k, stride);
      if n >= stride { WholePartChunk(n - stride, stride, k - 1, b); }
    } else if n >= stride {
      assert WholePart(n, stride) >= stride;
    }
  }

  /** Element `i` of a column lies in the part of its buffer that belongs to its file. */
  lemma ColumnIndex(l: Layout, i: nat, b: nat)
    requires WellFormed(l) && IsRow(l, i) && b < l.elementSize
    ensures RowsPerFile(l) > 0
    ensures Index(i, l.elementSize, b) == Index(FileOf(l, i), ColumnLength(l),
              Index(i % RowsPerFile(l), l.elementSize, b))
    ensures Index(i % RowsPerFile(l), l.elementSize, b) < ColumnLength(l)
    ensures (i % RowsPerFile(l) + 1) * l.elementSize <= ColumnLength(l)
  {
    RowsPositive(l);
    RowInFile(l, i);
    var k := i % RowsPerFile(l);
    OffsetOf(FileOf(l, i), RowsPerFile(l), k, l.elementSize);
    ProductBelow(l.elementSize, k, b, RowsPerFile(l));
    ProductBelow(l.elementSize, k, l.elementSize - 1, RowsPerFile(l));
    NextChunk(k + 1, l.elementSize);
  }

  /** The strided read of a column returns, for every row within one request, what get reads. */
  lemma ColumnReadCell(l: Layout, files: seq<Bytes>, j: nat, i: nat, b: nat)
    requires Holds(l, files) && IsRow(l, i) && b < l.elementSize && j < l.width
    ensures RowsPerFile(l) > 0 && FileOf(l, i) < l.nfiles
    ensures var at := Index(i % RowsPerFile(l), l.elementSize, b);
            var got := ColumnRead(l, files[FileOf(l, i)], j);
            && (at < |got| <==> InRequest(l, i) && b < |CellRead(l, files, i, j)|)
            && (at < |got| ==> got[at] == CellRead(l, files, i, j)[b])
  {
    RowsPositive(l);
    RowInFile(l, i);
    ColumnIndex(l, i, b);
    ColumnInRow(l, j);
    var k, file := i % RowsPerFile(l), files[FileOf(l, i)];
    GatherIsRead(file, ColumnLength(l), REQUEST_LIMIT, l.elementSize, RowLength(l), j * l.elementSize, k, b);
  }

  lemma GatherIsRead(s: Bytes, n: nat, limit: nat, stride: nat, skip: nat, c: nat, k: nat, b: nat)
    requires b < stride <= skip && (k + 1) * stride <= n
    ensures var got, read := Gather(s, Min(n, limit), stride, skip, c),
              ReadAt(s, Index(k, skip, c), Min(stride, limit));
            && (Index(k, stride, b) < |got| <==> (k + 1) * stride <= limit && b < |read|)
            && (Index(k, stride, b) < |got| ==> got[Index(k, stride, b)] == read[b])
  {
    Grow(k + 1, stride);
    GatherCell(s, Min(n, limit), stride, skip, c, k, b);
    ReadByte(s, Index(k, skip, c), Min(stride, limit), b);
  }

  lemma ReadByte(s: Bytes, offset: nat, length: nat, b: nat)
    ensures b < |ReadAt(s, offset, length)| <==> b < length && offset + b < |s|
    ensures b < |ReadAt(s, offset, length)| ==> ReadAt(s, offset, length)[b] == At(s, offset + b)
  {
  }

  lemma ScatterIsWrite(s: Bytes, data: Bytes, start: nat, n: nat, limit: nat, stride: nat, skip: nat, c: nat, k: nat,
      q: nat)
    requires 0 < stride && c + stride <= skip && q < skip && (k + 1) * stride <= n && start + n <= |data| && c <= |s|
    ensures At(Perform(s, limit, SwriteRequest(data[start..start + n], stride, skip, c)).0, Index(k, skip, q))
         == if (k + 1) * stride <= limit && c <= q < c + stride then At(data, start + Index(k, stride, q - c))
              else At(s, Index(k, skip, q))
  {
    var m := Min(n, limit);
    WholePartBound(m, stride);
    var sent := data[start..start + n][..WholePart(m, stride)];
    ScatterCell(s, sent, stride, skip, c, k, q);
    if c <= q < c + stride { WholePartChunk(m, stride, k, q - c); }
  }

  lemma ColumnWriteByte(l: Layout, file: Bytes, j: nat, data: Bytes, i: nat, q: nat)
    requires WellFormed(l) && IsRow(l, i) && q < RowLength(l) && j < l.width
    requires Index(FileOf(l, i), ColumnLength(l), 0) + ColumnLength(l) <= |data|
    ensures At(Perform(file, REQUEST_LIMIT, ColumnWrite(l, FileOf(l, i), j, data)).0, PlaceOf(l, i, q))
         == if j * l.elementSize <= |file| && InRequest(l, i)
              && j * l.elementSize <= q < j * l.elementSize + l.elementSize
            then At(data, Index(i, l.elementSize, q - j * l.elementSize)) else At(file, PlaceOf(l, i, q))
  {
    var c, e, f := j * l.elementSize, l.elementSize, FileOf(l, i);
    RowsPositive(l);
    var k := i % RowsPerFile(l);
    ColumnInRow(l, j);
    ColumnIndex(l, i, if c <= q < c + e then q - c else 0);
    if c <= |file| {
      ScatterIsWrite(file, data, Index(f, ColumnLength(l), 0), ColumnLength(l), REQUEST_LIMIT, e, RowLength(l), c,
          k, q);
    }
  }

  /** What chirp_matrix_get_col leaves at byte `b` of element `i`: the cell where the file has one,
      otherwise what the caller's buffer held. */
  function ColumnByte(l: Layout, files: seq<Bytes>, j: nat, buffer: Bytes, i: nat, b: nat): byte
    requires Holds(l, files) && IsRow(l, i)
  {
    if InRequest(l, i) && b < |CellRead(l, files, i, j)| then CellRead(l, files, i, j)[b]
        else At(buffer, Index(i, l.elementSize, b))
  }

  /** What chirp_matrix_set_col leaves at byte `q` of row `i`; a file that ends before the column is
      not written. */
  function ColumnSetByte(l: Layout, files: seq<Bytes>, j: nat, data: Bytes, i: nat, q: nat): byte
    requires Holds(l, files) && IsRow(l, i)
  {
    RowInFile(l, i);
    if j * l.elementSize <= |files[FileOf(l, i)]| && InRequest(l, i)
        && j * l.elementSize <= q < j * l.elementSize + l.elementSize
    then At(data, Index(i, l.elementSize, q - j * l.elementSize)) else Byte(l, files, i, q)
  }

  ghost predicate ColumnGot(l: Layout, files: seq<Bytes>, j: nat, buffer: Bytes, data: Bytes, done: nat)
    requires Holds(l, files)
  {
    forall i: nat, b: nat | IsRow(l, i) && b < l.elementSize ::
      At(data, Index(i, l.elementSize, b)) ==
        if FileOf(l, i) < done then ColumnByte(l, files, j, buffer, i, b) else At(buffer, Index(i, l.elementSize, b))
  }

  lemma ColumnGotStep(l: Layout, files: seq<Bytes>, j: nat, buffer: Bytes, data: Bytes, done: nat)
    requires Holds(l, files) && j < l.width && done < l.nfiles && ColumnGot(l, files, j, buffer, data, done)
    ensures ColumnGot(l, files, j, buffer,
              WriteAt(data, Index(done, ColumnLength(l), 0), ColumnRead(l, files[done], j)), done + 1)
  {
    var got := ColumnRead(l, files[done], j);
    var after := WriteAt(data, Index(done, ColumnLength(l), 0), got);
    forall i: nat, b: nat | IsRow(l, i) && b < l.elementSize
      ensures At(after, Index(i, l.elementSize, b)) ==
                if FileOf(l, i) < done + 1 then ColumnByte(l, files, j, buffer, i, b)
                    else At(buffer, Index(i, l.elementSize, b))
    {
      assert At(data, Index(i, l.elementSize, b)) ==
               if FileOf(l, i) < done then ColumnByte(l, files, j, buffer, i, b)
                   else At(buffer, Index(i, l.elementSize, b));
      ColumnGotByte(l, files, j, data, done, i, b);
    }
  }

  lemma ColumnGotByte(l: Layout, files: seq<Bytes>, j: nat, data: Bytes, done: nat, i: nat, b: nat)
    requires Holds(l, files) && j < l.width && done < l.nfiles && IsRow(l, i) && b < l.elementSize
    ensures At(WriteAt(data, Index(done, ColumnLength(l), 0), ColumnRead(l, files[done], j)),
              Index(i, l.elementSize, b))
         == if FileOf(l, i) == done && InRequest(l, i)
              && b < |CellRead(l, files, i, j)| then CellRead(l, files, i, j)[b]
            else At(data, Index(i, l.elementSize, b))
  {
    var got := ColumnRead(l, files[done], j);
    ColumnInRow(l, j);
    ColumnReadCell(l, files, j, i, b);
    ColumnIndex(l, i, b);
    GatherBound(files[done], ColumnLength(l), l.elementSize, RowLength(l), j * l.elementSize);
    PartByte(data, done, FileOf(l, i), ColumnLength(l), Index(i % RowsPerFile(l), l.elementSize, b), got);
  }

  /** A write to part `done` of a buffer, seen at a place in part `f`. */
  lemma PartByte(data: Bytes, done: nat, f: nat, length: nat, at: nat, got: Bytes)
    requires at < length && |got| <= length
    ensures At(WriteAt(data, Index(done, length, 0), got), Index(f, length, at))
         == if f == done && at < |got| then got[at] else At(data, Index(f, length, at))
  {
    if Index(done, length, 0) <= Index(f, length, at) < Index(done, length, 0) + |got| {
      SameProduct(length, f, at, done, Index(f, length, at) - Index(done, length, 0));
    }
  }

  lemma GatherBound(s: Bytes, n: nat, stride: nat, skip: nat, offset: nat)
    requires stride > 0
    ensures |Gather(s, Min(n, REQUEST_LIMIT), stride, skip, offset)| <= n
  {
    GatherShort(s, Min(n, REQUEST_LIMIT), stride, skip, offset);
  }

  lemma {:induction false} GatherShort(s: Bytes, n: nat, stride: nat, skip: nat, offset: nat)
    requires stride > 0
    ensures |Gather(s, n, stride, skip, offset)| <= n
    decreases n
  {
    if n < stride {
    } else {
      GatherShort(s, n - stride, stride, skip, offset + skip);
    }
  }

  // ---------------------------------------------------------------------- the operations

  class ChirpMatrix {
    const l: Layout
    var files: seq<Bytes>

    predicate Valid()
      reads this
    {
      Holds(l, files)
    }

    /** chirp_matrix_open: the files are created if they do not exist. */
    constructor (l: Layout, files: seq<Bytes>)
      requires Holds(l, files)
      ensures Valid() && this.l == l && this.files == files
    {
      this.l, this.files := l, files;
    }

    method Get(i: nat, j: nat) returns (data: Bytes)
      requires Valid() && i < l.height && j < l.width
      ensures IsRow(l, i) && data == CellRead(l, files, i, j)
      ensures forall b: nat :: b < |data| ==> data[b] == Byte(l, files, i, j * l.elementSize + b)
    {
      RowsPositive(l);
      RowInFile(l, i);
      var index, rows := i / RowsPerFile(l), RowsPerFile(l);
      OffsetOf(i % rows, l.width, j, l.elementSize);
      var offset := (i % rows * l.width + j) * l.elementSize;
      data := ReadAt(files[index], offset, Min(l.elementSize, REQUEST_LIMIT));
    }

    method GetRow(i: nat) returns (data: Bytes)
      requires Valid() && i < l.height
      ensures IsRow(l, i) && |data| <= Min(RowLength(l), REQUEST_LIMIT)
      ensures RowHeld(l, files, i, RowLength(l)) ==> |data| == Min(RowLength(l), REQUEST_LIMIT)
      ensures forall q: nat :: q < |data| ==> data[q] == Byte(l, files, i, q)
    {
      RowsPositive(l);
      RowInFile(l, i);
      var index, rows := i / RowsPerFile(l), RowsPerFile(l);
      var offset := i % rows * RowLength(l);
      data := ReadAt(files[index], offset, Min(RowLength(l), REQUEST_LIMIT));
    }

    /** The whole row, if a request can carry it. */
    method SetRow(i: nat, data: Bytes) returns (result: int)
      requires Valid() && i < l.height && |data| == RowLength(l)
      modifies this`files
      ensures Valid() && result == Min(RowLength(l), REQUEST_LIMIT)
      ensures RangeSet(l, old(files), files, 0, result, i, 1, data)
    {
      RowsPositive(l);
      RowInFile(l, i);
      var index, rows := i / RowsPerFile(l), RowsPerFile(l);
      var offset := i % rows * RowLength(l);
      var sent := data[..Min(|data|, REQUEST_LIMIT)];
      SliceIsRow(data, 0, |sent|, 0);
      assert sent == data[0..0 + |sent|];
      RangeSetStep(l, files, files, 0, |sent|, i, 0, data, sent);
      files, result := files[index := WriteAt(files[index], offset, sent)], |sent|;
    }

    predicate InRange(x: int, y: int, width: int, height: int)
    {
      x >= 0 && y >= 0 && width >= 1 && height >= 1 && x + width <= l.width && y + height <= l.height
    }

    /** The result of a range operation, and so all its buffer offsets, are integers of 32 bits. */
    predicate Fits(width: int, height: int)
    {
      width >= 0 && height >= 0 && RangeOffset(height, width, l.elementSize) <= INT_MAX
    }

    lemma RangeBounds(x: int, y: int, width: int, height: int, j: nat)
      requires WellFormed(l) && InRange(x, y, width, height) && j < height
      ensures 0 <= x * l.elementSize && 0 < width * l.elementSize
      ensures x * l.elementSize + width * l.elementSize <= RowLength(l)
      ensures IsRow(l, y + j)
      ensures 0 <= j * width && j * width * l.elementSize == Index(j, width * l.elementSize, 0)
      ensures Index(j, width * l.elementSize, 0) + width * l.elementSize <= Index(height, width * l.elementSize, 0)
    {
      RowsPositive(l);
      var e := l.elementSize;
      assert x * e + width * e == (x + width) * e;
      assert (x + width) * e <= l.width * e;
      Grow(width, e);
      ProductBelow(width * e, j, width * e - 1, height);
      OffsetOf(j, width, 0, e);
    }

    method SetRange(x: int, y: int, width: int, height: int, data: Bytes) returns (result: int)
      requires Valid() && (InRange(x, y, width, height) ==> |data| == Index(height, width * l.elementSize, 0))
      modifies this`files
      ensures Valid() && (!InRange(x, y, width, height) ==> result == -1 && files == old(files))
      ensures InRange(x, y, width, height) && Fits(width, height) ==>
                (result >= 0 <==> width * l.elementSize <= REQUEST_LIMIT)
      ensures InRange(x, y, width, height) && Fits(width, height) && result >= 0 ==>
                && result == |data| && 0 <= x * l.elementSize && 0 <= width * l.elementSize
                && RangeSet(l, old(files), files, x * l.elementSize, width * l.elementSize, y, height, data)
    {
      if !InRange(x, y, width, height) { return -1; }
      RangeBounds(x, y, width, height, 0);
      var first, length := x * l.elementSize, width * l.elementSize;
      for j := 0 to height
        invariant Valid() && RangeSet(l, old(files), files, first, length, y, j, data)
        invariant j > 0 ==> length <= REQUEST_LIMIT
      {
        RangeBounds(x, y, width, height, j);
        RowInFile(l, y + j);
        var rows := RowsPerFile(l);
        var index := (y + j) / rows;
        RangePlace(l, y + j, x);
        var fileOffset := (x + (y + j) % rows * l.width) * l.elementSize;
        var bufferOffset := j * width * l.elementSize;
        var piece := data[bufferOffset..bufferOffset + length];
        if length > REQUEST_LIMIT {
          files := files[index := WriteAt(files[index], fileOffset, piece[..REQUEST_LIMIT])];
          return -1;
        }
        SliceIsRow(data, j, length, bufferOffset);
        RangeSetStep(l, old(files), files, first, length, y, j, data, piece);
        files := files[index := WriteAt(files[index], fileOffset, piece)];
      }
      OffsetOf(height, width, 0, l.elementSize);
      result := height * width * l.elementSize;
    }

    /** Succeeds exactly when every row of the range is present in its file. */
    method GetRange(x: int, y: int, width: int, height: int) returns (result: int, data: Bytes)
      requires Valid()
      ensures !InRange(x, y, width, height) ==> result == -1
      ensures InRange(x, y, width, height) && Fits(width, height) ==>
                (result >= 0 <==> (&& width * l.elementSize <= REQUEST_LIMIT && 0 <= (x + width) * l.elementSize
                                   && RangeHeld(l, files, (x + width) * l.elementSize, y, height)))
      ensures InRange(x, y, width, height) && Fits(width, height) && result >= 0 ==>
                && result == |data| && 0 <= x * l.elementSize && 0 <= width * l.elementSize
                && RangeGot(l, files, x * l.elementSize, width * l.elementSize, y, height, data)
    {
      data := [];
      if !InRange(x, y, width, height) { return -1, data; }
      RangeBounds(x, y, width, height, 0);
      var first, length := x * l.elementSize, width * l.elementSize;
      assert first + length == (x + width) * l.elementSize;
      for j := 0 to height
        invariant RangeGot(l, files, first, length, y, j, data) && |data| == Index(j, length, 0)
        invariant j > 0 ==> length <= REQUEST_LIMIT
        invariant RangeHeld(l, files, first + length, y, j)
      {
        RangeBounds(x, y, width, height, j);
        RowInFile(l, y + j);
        var rows := RowsPerFile(l);
        var index := (y + j) / rows;
        RangePlace(l, y + j, x);
        var fileOffset := (x + (y + j) % rows * l.width) * l.elementSize;
        var piece := ReadAt(files[index], fileOffset, Min(length, REQUEST_LIMIT));
        if |piece| != length { return -1, data; }
        RangeGotStep(l, files, first, length, y, j, data, piece);
        data := data + piece;
      }
      OffsetOf(height, width, 0, l.elementSize);
      result := height * width * l.elementSize;
    }

    /** Agrees with get on every row that one request per file reaches. */
    method GetCol(j: nat, buffer: Bytes) returns (result: int, data: Bytes)
      requires Valid() && j < l.width && |buffer| == Index(l.nfiles, ColumnLength(l), 0)
      ensures result == l.nfiles && |data| == |buffer|
      ensures ColumnFits(l) ==> forall i: nat, b: nat | IsRow(l, i) && b < l.elementSize ::
                At(data, Index(i, l.elementSize, b)) == ColumnByte(l, files, j, buffer, i, b)
    {
      data := buffer;
      ColumnInRow(l, j);
      for f := 0 to l.nfiles
        invariant ColumnGot(l, files, j, buffer, data, f) && |data| == |buffer|
      {
        var got := Gather(files[f], Min(ColumnLength(l), REQUEST_LIMIT), l.elementSize, l.elementSize * l.width,
            j * l.elementSize);
        ColumnGotStep(l, files, j, buffer, data, f);
        GatherBound(files[f], ColumnLength(l), l.elementSize, RowLength(l), j * l.elementSize);
        PartEnds(f, l.nfiles, ColumnLength(l));
        data := WriteAt(data, Index(f, ColumnLength(l), 0), got);
      }
      forall i: nat | IsRow(l, i) ensures FileOf(l, i) < l.nfiles { RowInFile(l, i); }
      result := l.nfiles;
    }

    /** The answer counts the requests and does not tell which of them were refused. */
    method SetCol(j: nat, data: Bytes) returns (result: int)
      requires Valid() && j < l.width && |data| == Index(l.nfiles, ColumnLength(l), 0)
      modifies this`files
      ensures Valid() && result == l.nfiles
      ensures ColumnFits(l) ==> forall i: nat, q: nat | IsRow(l, i) && q < RowLength(l) ::
                Byte(l, files, i, q) == ColumnSetByte(l, old(files), j, data, i, q)
      ensures ColumnFits(l) ==> forall k :: 0 <= k < l.nfiles ==>
                Index(k, ColumnLength(l), 0) + ColumnLength(l) <= |data| &&
                files[k] == Perform(old(files)[k], REQUEST_LIMIT, ColumnWrite(l, k, j, data)).0
    {
      for f := 0 to l.nfiles
        invariant Valid()
        invariant forall k :: f <= k < l.nfiles ==> files[k] == old(files)[k]
        invariant forall k :: 0 <= k < f ==>
                    Index(k, ColumnLength(l), 0) + ColumnLength(l) <= |data| &&
                    files[k] == Perform(old(files)[k], REQUEST_LIMIT, ColumnWrite(l, k, j, data)).0
      {
        PartEnds(f, l.nfiles, ColumnLength(l));
        files := files[f := Perform(files[f], REQUEST_LIMIT, ColumnWrite(l, f, j, data)).0];
      }
      forall i: nat, q: nat | IsRow(l, i) && q < RowLength(l)
        ensures Byte(l, files, i, q) == ColumnSetByte(l, old(files), j, data, i, q)
      {
        RowInFile(l, i);
        ColumnWriteByte(l, old(files)[FileOf(l, i)], j, data, i, q);
      }
      result := l.nfiles;
    }

    /** A column that is set and read back, with other columns unchanged; a file that ends before the
        column is left alone. */
    method SetGetCol(j: nat, data: Bytes, buffer: Bytes) returns (back: Bytes)
      requires Valid() && j < l.width && |data| == Index(l.nfiles, ColumnLength(l), 0) && |buffer| == |data|
      requires ColumnLength(l) <= REQUEST_LIMIT && ColumnFits(l)
      modifies this`files
      ensures Valid() && |back| == |data|
      ensures (forall k :: 0 <= k < l.nfiles ==> j * l.elementSize <= |old(files)[k]|) ==>
                forall i: nat, b: nat | IsRow(l, i) && b < l.elementSize ::
                  At(back, Index(i, l.elementSize, b)) == At(data, Index(i, l.elementSize, b))
      ensures forall i: nat, q: nat | IsRow(l, i) && q < RowLength(l)
                && !(j * l.elementSize <= q < j * l.elementSize + l.elementSize) ::
                Byte(l, files, i, q) == Byte(l, old(files), i, q)
      ensures forall k :: 0 <= k < l.nfiles && |old(files)[k]| < j * l.elementSize ==> files[k] == old(files)[k]
    {
      var n := SetCol(j, data);
      ghost var before := old(files);
      n, back := GetCol(j, buffer);
      if forall k :: 0 <= k < l.nfiles ==> j * l.elementSize <= |before[k]| {
        forall i: nat, b: nat | IsRow(l, i) && b < l.elementSize
          ensures At(back, Index(i, l.elementSize, b)) == At(data, Index(i, l.elementSize, b))
        {
          RowInFile(l, i);
          ColumnBack(l, before, files, j, data, i, b);
          assert At(back, Index(i, l.elementSize, b)) == ColumnByte(l, files, j, buffer, i, b);
        }
      }
    }
  }

  lemma ColumnBack(l: Layout, before: seq<Bytes>, files: seq<Bytes>, j: nat, data: Bytes, i: nat, b: nat)
    requires Holds(l, before) && Holds(l, files) && IsRow(l, i) && b < l.elementSize && j < l.width
    requires ColumnLength(l) <= REQUEST_LIMIT && FileOf(l, i) < l.nfiles
    requires Index(FileOf(l, i), ColumnLength(l), 0) + ColumnLength(l) <= |data|
    requires j * l.elementSize <= |before[FileOf(l, i)]|
    requires files[FileOf(l, i)] == Perform(before[FileOf(l, i)], REQUEST_LIMIT,
               ColumnWrite(l, FileOf(l, i), j, data)).0
    ensures InRequest(l, i) && b < |CellRead(l, files, i, j)|
    ensures CellRead(l, files, i, j)[b] == At(data, Index(i, l.elementSize, b))
  {
    var f, length := FileOf(l, i), ColumnLength(l);
    var start := Index(f, length, 0);
    ColumnInRow(l, j);
    ColumnIndex(l, i, b);
    ColumnReadCell(l, files, j, i, b);
    ColumnReadBack(l, before[f], f, j, data);
    PartAt(data, f, length, Index(i % RowsPerFile(l), l.elementSize, b));
  }

  lemma PartAt(data: Bytes, f: nat, length: nat, at: nat)
    requires at < length && Index(f, length, 0) + length <= |data|
    ensures data[Index(f, length, 0)..Index(f, length, 0) + length][at] == At(data, Index(f, length, at))
  {
    var start := Index(f, length, 0);
    assert Index(f, length, at) == start + at;
    assert data[start..start + length][at] == data[start + at];
  }

  lemma ColumnReadBack(l: Layout, file: Bytes, f: nat, j: nat, data: Bytes)
    requires WellFormed(l) && j < l.width && ColumnLength(l) <= REQUEST_LIMIT && j * l.elementSize <= |file|
    requires Index(f, ColumnLength(l), 0) + ColumnLength(l) <= |data|
    ensures ColumnRead(l, Perform(file, REQUEST_LIMIT, ColumnWrite(l, f, j, data)).0, j)
         == data[Index(f, ColumnLength(l), 0)..Index(f, ColumnLength(l), 0) + ColumnLength(l)]
  {
    var start := Index(f, ColumnLength(l), 0);
    ColumnInRow(l, j);
    WholeColumn(RowsPerFile(l), l.elementSize);
    ReadBack(file, data[start..start + ColumnLength(l)], l.elementSize, RowLength(l), j * l.elementSize);
  }

  lemma ReadBack(s: Bytes, data: Bytes, stride: nat, skip: nat, c: nat)
    requires 0 < stride <= skip && c <= |s| && |data| <= REQUEST_LIMIT && WholePart(|data|, stride) == |data|
    ensures Gather(Perform(s, REQUEST_LIMIT, SwriteRequest(data, stride, skip, c)).0, |data|, stride, skip, c) == data
  {
    assert data[..|data|] == data;
    GatherOfScatter(s, data, stride, skip, c);
  }

  lemma {:induction false} WholeColumn(rows: nat, stride: nat)
    requires stride > 0
    ensures 0 <= rows * stride && WholePart(rows * stride, stride) == rows * stride
  {
    if rows == 0 {
    } else {
      NextChunk(rows, stride);
      WholeColumn(rows - 1, stride);
    }
  }

  /** The offset that the range operations compute. */
  lemma RangePlace(l: Layout, i: nat, x: nat)
    requires WellFormed(l)
    ensures RowsPerFile(l) > 0 && 0 <= x * l.elementSize
    ensures (x + i % RowsPerFile(l) * l.width) * l.elementSize == PlaceOf(l, i, x * l.elementSize)
  {
    RowsPositive(l);
    OffsetOf(i % RowsPerFile(l), l.width, x, l.elementSize);
  }

  lemma PartEnds(f: nat, n: nat, length: nat)
    requires f < n
    ensures Index(f, length, 0) + length <= Index(n, length, 0)
  {
    if length > 0 { ProductBelow(length, f, length - 1, n); }
  }
}

/** Strided transfers: the loops of cfs_basic_sread and cfs_basic_swrite. */
module Strided {
  import opened Common
  import opened FileBytes

  /** `data` laid out in chunks of `stride` bytes, the chunks `skip` bytes apart. */
  function Scatter(s: Bytes, data: Bytes, stride: nat, skip: nat, offset: nat): Bytes
    requires stride > 0
    decreases |data|
  {
    if |data| <= stride then WriteAt(s, offset, data)
    else Scatter(WriteAt(s, offset, data[..stride]), data[stride..], stride, skip, offset + skip)
  }

  /** The chunks read back, stopping at the first one the file cannot fill. */
  function Gather(s: Bytes, length: int, stride: nat, skip: nat, offset: nat): Bytes
    requires stride > 0
    decreases length
  {
    if length < stride then []
    else
      var chunk := ReadAt(s, offset, stride);
      if |chunk| < stride then chunk
      else chunk + Gather(s, length - stride, stride, skip, offset + skip)
  }

  /** The file position of byte `q` of a strided transfer. */
  function Slot(q: nat, stride: nat, skip: nat, offset: nat): nat
    requires stride > 0
    decreases q
  {
    if q < stride then offset + q else Slot(q - stride, stride, skip, offset + skip)
  }

  /** The part of a length that fills whole strides. */
  function WholePart(n: int, stride: nat): nat
    requires stride > 0
    decreases n
  {
    if n < stride then 0 else stride + WholePart(n - stride, stride)
  }

  predicate Covered(p: nat, n: nat, stride: nat, skip: nat, offset: nat)
    requires stride > 0
  {
    exists q: nat :: q < n && Slot(q, stride, skip, offset) == p
  }

  lemma {:induction false} SlotClosedForm(k: nat, b: nat, stride: nat, skip: nat, offset: nat)
    requires b < stride
    ensures k * stride >= 0 && k * skip >= 0
    ensures Slot(k * stride + b, stride, skip, offset) == offset + k * skip + b
    decreases k
  {
    if k == 0 {
    } else {
      assert k * stride == (k - 1) * stride + stride && k * skip == (k - 1) * skip + skip;
      SlotClosedForm(k - 1, b, stride, skip, offset + skip);
    }
  }

  /** Slots never fall below the start of the transfer. */
  lemma {:induction false} SlotBound(q: nat, stride: nat, skip: nat, offset: nat)
    requires stride > 0
    ensures Slot(q, stride, skip, offset) >= offset
    decreases q
  {
    if q < stride {
    } else {
      SlotBound(q - stride, stride, skip, offset + skip);
    }
  }

  /** The next whole stride starts `skip` further on. */
  lemma {:induction false} SlotStep(q: nat, b: nat, stride: nat, skip: nat, offset: nat)
    requires stride > 0 && WholePart(q, stride) == q && b < stride
    ensures Slot(q + b, stride, skip, offset) == Slot(q, stride, skip, offset) + b
    ensures Slot(q + stride, stride, skip, offset) == Slot(q, stride, skip, offset) + skip
    decreases q
  {
    if q < stride {
    } else {
      SlotStep(q - stride, b, stride, skip, offset + skip);
    }
  }

  lemma {:induction false} WholePartStep(q: nat, stride: nat)
    requires stride > 0 && WholePart(q, stride) == q
    ensures WholePart(q + stride, stride) == q + stride
  {
  }

  /** A position outside the slots keeps its byte. */
  lemma {:induction false} ScatterKeeps(s: Bytes, data: Bytes, stride: nat, skip: nat, offset: nat, p: nat)
    requires stride > 0 && !Covered(p, |data|, stride, skip, offset)
    ensures At(Scatter(s, data, stride, skip, offset), p) == At(s, p)
    decreases |data|
  {
    if |data| <= stride {
      if offset <= p < offset + |data| {
        assert Slot(p - offset, stride, skip, offset) == p;
      }
    } else {
      CoveredSplit(p, |data|, stride, skip, offset);
      ScatterKeeps(WriteAt(s, offset, data[..stride]), data[stride..], stride, skip, offset + skip, p);
    }
  }

  /** A covered position gets a byte that does not depend on the old file. */
  lemma {:induction false} ScatterDetermines(s: Bytes, t: Bytes, data: Bytes, stride: nat, skip: nat, offset: nat,
      p: nat)
    requires stride > 0 && (Covered(p, |data|, stride, skip, offset) || At(s, p) == At(t, p))
    ensures At(Scatter(s, data, stride, skip, offset), p) == At(Scatter(t, data, stride, skip, offset), p)
    decreases |data|
  {
    if |data| <= stride {
      if Covered(p, |data|, stride, skip, offset) {
        var q: nat :| q < |data| && Slot(q, stride, skip, offset) == p;
        SlotBound(q, stride, skip, offset);
      }
    } else {
      var s1, t1 := WriteAt(s, offset, data[..stride]), WriteAt(t, offset, data[..stride]);
      CoveredSplit(p, |data|, stride, skip, offset);
      assert !Covered(p, |data| - stride, stride, skip, offset + skip) ==> At(s1, p) == At(t1, p);
      ScatterDetermines(s1, t1, data[stride..], stride, skip, offset + skip, p);
      assert Scatter(s, data, stride, skip, offset) == Scatter(s1, data[stride..], stride, skip, offset + skip);
      assert Scatter(t, data, stride, skip, offset) == Scatter(t1, data[stride..], stride, skip, offset + skip);
    }
  }

  lemma CoveredSplit(p: nat, n: nat, stride: nat, skip: nat, offset: nat)
    requires 0 < stride < n
    ensures Covered(p, n, stride, skip, offset) <==>
              offset <= p < offset + stride || Covered(p, n - stride, stride, skip, offset + skip)
  {
    if Covered(p, n, stride, skip, offset) {
      var q: nat :| q < n && Slot(q, stride, skip, offset) == p;
      if q >= stride {
        assert Slot(q - stride, stride, skip, offset + skip) == p;
      }
    }
    if offset <= p < offset + stride {
      assert Slot(p - offset, stride, skip, offset) == p;
    } else if Covered(p, n - stride, stride, skip, offset + skip) {
      var q: nat :| q < n - stride && Slot(q, stride, skip, offset + skip) == p;
      assert Slot(q + stride, stride, skip, offset) == p;
    }
  }

  /** The highest position a scatter of `n` bytes reaches, plus one. */
  function Extent(n: nat, stride: nat, skip: nat, offset: nat): nat
    requires stride > 0
    decreases n
  {
    if n == 0 then 0
    else if n <= stride then offset + n
    else Max(offset + stride, Extent(n - stride, stride, skip, offset + skip))
  }

  lemma {:induction false} ScatterLength(s: Bytes, data: Bytes, stride: nat, skip: nat, offset: nat)
    requires stride > 0
    ensures |Scatter(s, data, stride, skip, offset)| == Max(|s|, Extent(|data|, stride, skip, offset))
    decreases |data|
  {
    if |data| <= stride {
    } else {
      ScatterLength(WriteAt(s, offset, data[..stride]), data[stride..], stride, skip, offset + skip);
    }
  }

  lemma {:induction false} ExtentCovers(n: nat, stride: nat, skip: nat, offset: nat, q: nat)
    requires stride > 0 && q < n
    ensures Slot(q, stride, skip, offset) < Extent(n, stride, skip, offset)
    decreases n
  {
    if n <= stride || q < stride {
    } else {
      ExtentCovers(n - stride, stride, skip, offset + skip, q - stride);
    }
  }

  /** A strided write that is sent again after a lost reply leaves the same file,
      even when its strides overlap. */
  lemma ScatterTwice(s: Bytes, data: Bytes, stride: nat, skip: nat, offset: nat)
    requires stride > 0
    ensures Scatter(Scatter(s, data, stride, skip, offset), data, stride, skip, offset)
         == Scatter(s, data, stride, skip, offset)
  {
    var once := Scatter(s, data, stride, skip, offset);
    var twice := Scatter(once, data, stride, skip, offset);
    ScatterLength(s, data, stride, skip, offset);
    ScatterLength(once, data, stride, skip, offset);
    forall p: nat ensures At(twice, p) == At(once, p) {
      if Covered(p, |data|, stride, skip, offset) {
        ScatterDetermines(once, s, data, stride, skip, offset, p);
      } else {
        ScatterKeeps(once, data, stride, skip, offset, p);
      }
    }
    Extensional(twice, once);
  }

  lemma BelowUncovered(p: nat, n: nat, stride: nat, skip: nat, offset: nat)
    requires stride > 0 && p < offset
    ensures !Covered(p, n, stride, skip, offset)
  {
    forall q: nat | q < n ensures Slot(q, stride, skip, offset) != p {
      SlotBound(q, stride, skip, offset);
    }
  }

  /** With strides that do not overlap, byte `q` ends up in its own slot. */
  lemma {:induction false} ScatterByte(s: Bytes, data: Bytes, stride: nat, skip: nat, offset: nat, q: nat)
    requires 0 < stride <= skip && q < |data|
    ensures At(Scatter(s, data, stride, skip, offset), Slot(q, stride, skip, offset)) == data[q]
    decreases |data|
  {
    if |data| > stride {
      if q < stride {
        ScatterFirst(s, data, stride, skip, offset, q);
      } else {
        var s1 := WriteAt(s, offset, data[..stride]);
        ScatterByte(s1, data[stride..], stride, skip, offset + skip, q - stride);
      }
    }
  }

  lemma ScatterFirst(s: Bytes, data: Bytes, stride: nat, skip: nat, offset: nat, q: nat)
    requires 0 < stride <= skip && q < stride < |data|
    ensures At(Scatter(s, data, stride, skip, offset), offset + q) == data[q]
  {
    var s1 := WriteAt(s, offset, data[..stride]);
    assert At(s1, offset + q) == data[..stride][q];
    BelowUncovered(offset + q, |data| - stride, stride, skip, offset + skip);
    ScatterKeeps(s1, data[stride..], stride, skip, offset + skip, offset + q);
  }

  /** Scattering one more chunk writes it at the next slot. */
  lemma {:induction false} ScatterAppend(s: Bytes, data: Bytes, chunk: Bytes, stride: nat, skip: nat, offset: nat)
    requires stride > 0 && WholePart(|data|, stride) == |data| && |chunk| <= stride
    ensures Scatter(s, data + chunk, stride, skip, offset)
         == WriteAt(Scatter(s, data, stride, skip, offset), Slot(|data|, stride, skip, offset), chunk)
    decreases |data|
  {
    if data == [] {
      assert data + chunk == chunk;
    } else if chunk == [] {
      assert data + chunk == data;
    } else {
      var all := data + chunk;
      var s1 := WriteAt(s, offset, data[..stride]);
      assert all[..stride] == data[..stride] && all[stride..] == data[stride..] + chunk;
      ScatterAppend(s1, data[stride..], chunk, stride, skip, offset + skip);
      if |data| == stride {
        assert data[..stride] == data && data[stride..] == [];
      }
    }
  }

  lemma ScatterPrefix(s: Bytes, data: Bytes, done: nat, more: nat, stride: nat, skip: nat, offset: nat)
    requires stride > 0 && WholePart(done, stride) == done && more <= stride && done + more <= |data|
    ensures Scatter(s, data[..done + more], stride, skip, offset)
         == WriteAt(Scatter(s, data[..done], stride, skip, offset), Slot(done, stride, skip, offset),
              data[done..done + more])
  {
    assert data[..done + more] == data[..done] + data[done..done + more];
    ScatterAppend(s, data[..done], data[done..done + more], stride, skip, offset);
  }

  /** Every byte a strided read returns is the byte at its slot, and it returns as many
      whole chunks as the file holds. */
  lemma {:induction false} GatherByte(s: Bytes, length: int, stride: nat, skip: nat, offset: nat, q: nat)
    requires stride > 0 && q < |Gather(s, length, stride, skip, offset)|
    ensures Slot(q, stride, skip, offset) < |s|
    ensures Gather(s, length, stride, skip, offset)[q] == At(s, Slot(q, stride, skip, offset))
    decreases length
  {
    if q >= stride {
      GatherRest(s, length, stride, skip, offset, q);
      GatherByte(s, length - stride, stride, skip, offset + skip, q - stride);
    } else {
      GatherFirst(s, length, stride, skip, offset, q);
    }
  }

  lemma {:induction false} GatherFirst(s: Bytes, length: int, stride: nat, skip: nat, offset: nat, q: nat)
    requires q < stride && q < |Gather(s, length, stride, skip, offset)|
    ensures offset + q < |s| && Gather(s, length, stride, skip, offset)[q] == s[offset + q]
  {
    var chunk := ReadAt(s, offset, stride);
    assert q < |chunk| && chunk[q] == s[offset + q];
  }

  lemma {:induction false} GatherRest(s: Bytes, length: int, stride: nat, skip: nat, offset: nat, q: nat)
    requires 0 < stride <= q < |Gather(s, length, stride, skip, offset)|
    ensures q - stride < |Gather(s, length - stride, stride, skip, offset + skip)|
    ensures Gather(s, length, stride, skip, offset)[q]
              == Gather(s, length - stride, stride, skip, offset + skip)[q - stride]
  {
  }

  lemma {:induction false} GatherFull(s: Bytes, n: nat, stride: nat, skip: nat, offset: nat)
    requires stride > 0 && WholePart(n, stride) == n
    requires forall q: nat :: q < n ==> Slot(q, stride, skip, offset) < |s|
    ensures |Gather(s, n, stride, skip, offset)| == n
    decreases n
  {
    if n < stride {
    } else {
      assert Slot(stride - 1, stride, skip, offset) == offset + stride - 1;
      var rest := offset + skip;
      forall q: nat | q < n - stride ensures Slot(q, stride, skip, rest) < |s| {
        assert Slot(q + stride, stride, skip, offset) < |s|;
      }
      GatherFull(s, n - stride, stride, skip, offset + skip);
    }
  }

  /** Reading back a strided write returns its data. */
  lemma GatherOfScatter(s: Bytes, data: Bytes, stride: nat, skip: nat, offset: nat)
    requires 0 < stride <= skip && WholePart(|data|, stride) == |data|
    ensures Gather(Scatter(s, data, stride, skip, offset), |data|, stride, skip, offset) == data
  {
    var after := Scatter(s, data, stride, skip, offset);
    ScatterLength(s, data, stride, skip, offset);
    forall q: nat | q < |data| ensures Slot(q, stride, skip, offset) < |after| {
      ExtentCovers(|data|, stride, skip, offset, q);
    }
    GatherFull(after, |data|, stride, skip, offset);
    var back := Gather(after, |data|, stride, skip, offset);
    forall q | 0 <= q < |data| ensures back[q] == data[q] {
      GatherByte(after, |data|, stride, skip, offset, q);
      ScatterByte(s, data, stride, skip, offset, q);
    }
  }

  /** The open file behind a descriptor. The backend may fail a request or, for a write,
      keep only a prefix of it. */
  class Backend {
    var contents: Bytes

    constructor (contents: Bytes)
      ensures this.contents == contents
    {
      this.contents := contents;
    }

    /** `cfs_basic_sread`; the request numbers in `broken` fail with an error. */
    method Sread(length: int, strideLength: int, strideSkip: int, offset: int, broken: set<nat>)
      returns (result: int, buffer: Bytes)
      ensures strideLength < 0 || strideSkip < 0 || offset < 0 ==> result == -1
      ensures result >= 0 ==> result == |buffer| && strideLength >= 0 && strideSkip >= 0 && offset >= 0
      ensures result > 0 ==> strideLength > 0 && buffer <= Gather(contents, length, strideLength, strideSkip, offset)
      ensures strideLength > 0 && strideSkip >= 0 && offset >= 0 && broken == {} ==>
                result >= 0 && buffer == Gather(contents, length, strideLength, strideSkip, offset)
    {
      buffer := [];
      if strideLength < 0 || strideSkip < 0 || offset < 0 { return -1, []; }
      var actual := 0;
      if strideLength == 0 {
        // every request asks for nothing, so the first one ends the loop
        actual := if length >= 0 && 0 in broken then -1 else 0;
      } else {
        buffer, actual := SreadLoop(length, strideLength, strideSkip, offset, broken);
      }
      if |buffer| > 0 { result := |buffer|; }
      else if actual < 0 { result := -1; }
      else { result := 0; }
    }

    method SreadLoop(length: int, strideLength: nat, strideSkip: nat, offset: nat, broken: set<nat>)
      returns (buffer: Bytes, actual: int)
      requires strideLength > 0
      ensures buffer <= Gather(contents, length, strideLength, strideSkip, offset)
      ensures broken == {} ==> actual >= 0 && buffer == Gather(contents, length, strideLength, strideSkip, offset)
    {
      buffer := [];
      var remaining, at, requests := length, offset, 0;
      ghost var goal := Gather(contents, length, strideLength, strideSkip, offset);
      ghost var left := goal;
      actual := 0;
      while remaining >= strideLength
        invariant actual >= 0 && at >= 0
        invariant left == Gather(contents, remaining, strideLength, strideSkip, at)
        invariant goal == buffer + left
        decreases remaining
      {
        var chunk := ReadAt(contents, at, strideLength);
        actual := if requests in broken then -1 else |chunk|;
        requests := requests + 1;
        if actual > 0 {
          left := if actual < strideLength then []
                  else Gather(contents, remaining - strideLength, strideLength, strideSkip, at + strideSkip);
          Regroup(buffer, chunk, left);
          assert chunk + [] == chunk;
          buffer := buffer + chunk;
          remaining := remaining - actual;
          at := at + strideSkip;
          if actual != strideLength { return; }
        } else {
          return;
        }
      }
    }

    /** `cfs_basic_swrite`; `stored(i)` is what the backend answers to request `i`:
        an error, or how many of the bytes it kept. */
    method Swrite(data: Bytes, strideLength: int, strideSkip: int, offset: int, stored: nat -> int)
      returns (result: int)
      modifies this
      ensures result <= 0 ==> contents == old(contents)
      ensures result > 0 ==>
                && strideLength > 0 && strideSkip >= 0 && offset >= 0 && result <= |data|
                && contents == Scatter(old(contents), data[..result], strideLength, strideSkip, offset)
      ensures strideLength < 0 || strideSkip < 0 || offset < 0 ==> result == -1
      ensures strideLength > 0 && strideSkip >= 0 && offset >= 0 && (forall i: nat :: stored(i) >= strideLength) ==>
                result == WholePart(|data|, strideLength)
    {
      if strideLength < 0 || strideSkip < 0 || offset < 0 { return -1; }
      if strideLength == 0 { return if stored(0) < 0 then -1 else 0; }
      var total, actual := SwriteLoop(data, strideLength, strideSkip, offset, stored);
      if total > 0 { return total; }
      else if actual < 0 { return -1; }
      else { return 0; }
    }

    method SwriteLoop(data: Bytes, strideLength: nat, strideSkip: nat, offset: nat, stored: nat -> int)
      returns (total: nat, actual: int)
      requires strideLength > 0
      modifies this
      ensures total <= |data|
      ensures contents == Scatter(old(contents), data[..total], strideLength, strideSkip, offset)
      ensures (forall i: nat :: stored(i) >= strideLength) ==> actual >= 0 && total == WholePart(|data|, strideLength)
    {
      total, actual := 0, 0;
      var at, requests := offset, 0;
      ghost var before := contents;
      while |data| - total >= strideLength
        invariant total <= |data| && WholePart(total, strideLength) == total
        invariant at == Slot(total, strideLength, strideSkip, offset)
        invariant actual >= 0
        invariant total + WholePart(|data| - total, strideLength) == WholePart(|data|, strideLength)
        invariant contents == Scatter(before, data[..total], strideLength, strideSkip, offset)
        decreases |data| - total
      {
        actual := Min(stored(requests), strideLength);
        requests := requests + 1;
        if actual > 0 {
          ScatterPrefix(before, data, total, actual, strideLength, strideSkip, offset);
          SlotStep(total, 0, strideLength, strideSkip, offset);
          WholePartStep(total, strideLength);
          contents := WriteAt(contents, at, data[total..total + actual]);
          total := total + actual;
          at := at + strideSkip;
          if actual != strideLength { return; }
        } else {
          return;
        }
      }
    }
  }
}

/** Byte-level view of a remote file: positional reads and writes and their strided forms. */
module FileBytes {

  newtype byte = x: int | 0 <= x < 256

  type Bytes = seq<byte>

  function Min(a: int, b: int): int { if a < b then a else b }

  function Max(a: int, b: int): int { if a > b then a else b }

  /** The byte at position `p`; everything past the end of a file reads as zero. */
  function At(s: Bytes, p: nat): byte { if p < |s| then s[p] else 0 }

  /** What POSIX pread returns: the bytes that exist, up to `length` of them. */
  function ReadAt(s: Bytes, offset: nat, length: nat): Bytes
  {
    if offset >= |s| then [] else s[offset..Min(offset + length, |s|)]
  }

  function Truncate(s: Bytes, length: nat): (r: Bytes)
    ensures |r| == length
    ensures forall p: nat :: At(r, p) == if p < length then At(s, p) else 0
  {
    seq(length, (p: nat) => At(s, p))
  }

  function Overlay(s: Bytes, offset: nat, data: Bytes, p: nat): byte {
    if offset <= p < offset + |data| then data[p - offset] else At(s, p)
  }

  /** What POSIX pwrite leaves: an overlay, with a gap before it filled by zeros. */
  function WriteAt(s: Bytes, offset: nat, data: Bytes): (r: Bytes)
    ensures |r| == if data == [] then |s| else Max(|s|, offset + |data|)
    ensures forall p: nat :: At(r, p) == if offset <= p < offset + |data| then data[p - offset] else At(s, p)
  {
    seq(if data == [] then |s| else Max(|s|, offset + |data|), (p: nat) => Overlay(s, offset, data, p))
  }

  /** Two files of the same length with the same byte everywhere are the same file. */
  lemma Extensional(s: Bytes, t: Bytes)
    requires |s| == |t|
    requires forall p: nat :: At(s, p) == At(t, p)
    ensures s == t
  {
    forall p | 0 <= p < |s| ensures s[p] == t[p] {
      assert At(s, p) == At(t, p);
    }
  }

  lemma WriteTwice(s: Bytes, offset: nat, data: Bytes)
    ensures WriteAt(WriteAt(s, offset, data), offset, data) == WriteAt(s, offset, data)
  {
    Extensional(WriteAt(WriteAt(s, offset, data), offset, data), WriteAt(s, offset, data));
  }

  /** Writing a prefix and then the rest right behind it is writing the whole. */
  lemma WriteSplit(s: Bytes, offset: nat, data: Bytes, k: nat)
    requires k <= |data|
    ensures WriteAt(WriteAt(s, offset, data[..k]), offset + k, data[k..]) == WriteAt(s, offset, data)
  {
    Extensional(WriteAt(WriteAt(s, offset, data[..k]), offset + k, data[k..]), WriteAt(s, offset, data));
  }

  /** Writing one part after the other, from a prefix on. */
  lemma WriteNext(s: Bytes, offset: nat, data: Bytes, done: nat, more: nat)
    requires done + more <= |data|
    ensures WriteAt(WriteAt(s, offset, data[..done]), offset + done, data[done..][..more])
         == WriteAt(s, offset, data[..done + more])
  {
    var part := data[..done + more];
    assert part[..done] == data[..done] && part[done..] == data[done..][..more];
    WriteSplit(s, offset, part, done);
  }

  /** Writing back bytes that a file already holds changes nothing. */
  lemma WriteBack(s: Bytes, offset: nat, data: Bytes)
    requires data != [] ==> offset + |data| <= |s| && s[offset..offset + |data|] == data
    ensures WriteAt(s, offset, data) == s
  {
    if data != [] {
      forall p: nat ensures At(WriteAt(s, offset, data), p) == At(s, p) {
        if offset <= p < offset + |data| {
          assert s[offset..offset + |data|][p - offset] == s[p];
        }
      }
      Extensional(WriteAt(s, offset, data), s);
    }
  }

  /** A read inside freshly written bytes returns them. */
  lemma ReadOfWrite(s: Bytes, offset: nat, data: Bytes, from: nat, length: nat)
    requires offset <= from && from + length <= offset + |data|
    ensures ReadAt(WriteAt(s, offset, data), from, length) == data[from - offset..from - offset + length]
  {
    var r := WriteAt(s, offset, data);
    if length > 0 {
      var got := r[from..from + length];
      forall k | 0 <= k < length ensures got[k] == data[from - offset..from - offset + length][k] {
        assert At(r, from + k) == data[from + k - offset];
      }
    } else {
      assert ReadAt(r, from, 0) == [];
    }
  }

  /** A read splits: what the first part got, then what the rest gets. */
  lemma ReadSplit(s: Bytes, offset: nat, length: nat, k: nat)
    requires k <= length && offset + k <= |s|
    ensures ReadAt(s, offset, length) == ReadAt(s, offset, k) + ReadAt(s, offset + k, length - k)
  {
  }

  lemma SliceOfSlice(s: Bytes, a: nat, b: nat, c: nat, d: nat)
    requires a <= b <= |s| && c <= d <= b - a
    ensures s[a..b][c..d] == s[a + c..a + d]
  {
    var left, right := s[a..b][c..d], s[a + c..a + d];
    forall i | 0 <= i < d - c ensures left[i] == right[i] {
      assert s[a..b][c + i] == s[a + c + i];
    }
  }
}

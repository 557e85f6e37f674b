/** The reliable client handle of chirp_reli.c: one block that is both read cache and
    write-behind buffer, over a connection that may break and be retried. */
module Reli {
  import opened FileBytes
  import opened Strided

  /** The requests of this handle that change the remote file. */
  datatype Request =
    | PwriteRequest(data: Bytes, offset: nat)
    | SwriteRequest(sdata: Bytes, strideLength: int, strideSkip: int, soffset: int)
    | FtruncateRequest(length: int)

  /** What the server does with a request: it caps data at `limit` bytes and refuses a
      strided write that starts past the end of the file. */
  function Perform(contents: Bytes, limit: nat, r: Request): (Bytes, int)
  {
    match r
    case PwriteRequest(data, offset) =>
      var sent := data[..Min(|data|, limit)];
      (WriteAt(contents, offset, sent), |sent|)
    case SwriteRequest(data, strideLength, strideSkip, offset) =>
      if strideLength < 0 || strideSkip < 0 || offset < 0 || |contents| < offset then (contents, -1)
      else if strideLength == 0 then (contents, 0)
      else
        WholePartBound(Min(|data|, limit), strideLength);
        var sent := data[..WholePart(Min(|data|, limit), strideLength)];
        (Scatter(contents, sent, strideLength, strideSkip, offset), |sent|)
    case FtruncateRequest(length) =>
      if length < 0 then (contents, -1) else (Truncate(contents, length), 0)
  }

  lemma {:induction false} WholePartBound(n: nat, stride: nat)
    requires stride > 0
    ensures WholePart(n, stride) <= n
    decreases n
  {
    if n < stride {
    } else {
      WholePartBound(n - stride, stride);
    }
  }

  predicate Strides(k: nat, stride: nat, n: int) { n == k * stride }

  lemma {:induction false} WholePartIs(n: nat, stride: nat) returns (k: nat)
    requires stride > 0
    ensures Strides(k, stride, WholePart(n, stride)) && WholePart(n, stride) <= n < WholePart(n, stride) + stride
    decreases n
  {
    if n < stride {
      k := 0;
    } else {
      var j := WholePartIs(n - stride, stride);
      k := j + 1;
      assert k * stride == j * stride + stride;
    }
  }

  /** What a request leaves of the file, byte by byte, and its answer. A truncation keeps every byte below the new
      length and fills up with zeros. A write stores what the limit lets through. A strided write is refused if it
      starts past the end; otherwise it stores whole strides, each byte in its slot. */
  ghost predicate PerformTells(before: Bytes, limit: nat, r: Request, after: Bytes, result: int)
  {
    match r
    case PwriteRequest(data, offset) =>
      && result == Min(|data|, limit)
      && |after| == (if result == 0 then |before| else Max(|before|, offset + result))
      && forall p: nat :: At(after, p) == if offset <= p < offset + result then data[p - offset] else At(before, p)
    case SwriteRequest(data, stride, skip, offset) =>
      if stride < 0 || skip < 0 || offset < 0 || offset > |before| then result == -1 && after == before
      else if stride == 0 then result == 0 && after == before
      else
        && 0 <= result <= Min(|data|, limit) < result + stride && (exists k: nat :: Strides(k, stride, result))
        && (stride <= skip ==> forall q: nat :: q < result ==> At(after, Slot(q, stride, skip, offset)) == data[q])
        && (forall p: nat :: !Covered(p, result, stride, skip, offset) ==> At(after, p) == At(before, p))
    case FtruncateRequest(length) =>
      if length < 0 then result == -1 && after == before
      else result == 0 && |after| == length && forall p: nat :: p < length ==> after[p] == At(before, p)
  }

  lemma PerformIsTold(contents: Bytes, limit: nat, r: Request)
    ensures PerformTells(contents, limit, r, Perform(contents, limit, r).0, Perform(contents, limit, r).1)
  {
    match r
    case PwriteRequest(data, offset) =>
    case SwriteRequest(data, stride, skip, offset) =>
      if stride > 0 && skip >= 0 && 0 <= offset <= |contents| {
        StridedIsTold(contents, limit, data, stride, skip, offset);
      }
    case FtruncateRequest(length) =>
      if length >= 0 {
        forall p: nat | p < length ensures Truncate(contents, length)[p] == At(contents, p) {
          assert At(Truncate(contents, length), p) == At(contents, p);
        }
      }
  }

  lemma StridedIsTold(contents: Bytes, limit: nat, data: Bytes, stride: nat, skip: nat, offset: nat)
    requires stride > 0 && offset <= |contents|
    ensures var (after, result) := Perform(contents, limit, SwriteRequest(data, stride, skip, offset));
            PerformTells(contents, limit, SwriteRequest(data, stride, skip, offset), after, result)
  {
    var k := WholePartIs(Min(|data|, limit), stride);
    var sent := data[..WholePart(Min(|data|, limit), stride)];
    var after := Scatter(contents, sent, stride, skip, offset);
    assert Strides(k, stride, |sent|);
    forall q: nat | q < |sent| && stride <= skip ensures At(after, Slot(q, stride, skip, offset)) == data[q] {
      ScatterByte(contents, sent, stride, skip, offset, q);
    }
    forall p: nat | !Covered(p, |sent|, stride, skip, offset) ensures At(after, p) == At(contents, p) {
      ScatterKeeps(contents, sent, stride, skip, offset, p);
    }
  }

  /** A request that is performed again leaves the same file and gets the same answer. */
  lemma PerformTwice(contents: Bytes, limit: nat, r: Request)
    ensures Perform(Perform(contents, limit, r).0, limit, r) == Perform(contents, limit, r)
  {
    match r
    case PwriteRequest(data, offset) =>
      WriteTwice(contents, offset, data[..Min(|data|, limit)]);
    case SwriteRequest(data, strideLength, strideSkip, offset) =>
      if strideLength > 0 && strideSkip >= 0 && 0 <= offset <= |contents| {
        WholePartBound(Min(|data|, limit), strideLength);
        var sent := data[..WholePart(Min(|data|, limit), strideLength)];
        ScatterTwice(contents, sent, strideLength, strideSkip, offset);
        ScatterLength(contents, sent, strideLength, strideSkip, offset);
      }
    case FtruncateRequest(length) =>
      if length >= 0 {
        Extensional(Truncate(Truncate(contents, length), length), Truncate(contents, length));
      }
  }

  /** One turn of the RETRY_FILE loop. */
  datatype Attempt =
    | Unreachable   // no connection yet: try again
    | Refused       // the host cannot be had or the file is stale: give up
    | ResetBefore   // connection lost before the server acted
    | ResetAfter    // connection lost after the server acted, the answer is gone
    | Denied        // the server answers an error and does nothing
    | Answered

  /** The remote file, reached through one connection; `errors` counts the requests
      that came back to the handle with a negative result. */
  class Remote {
    var contents: Bytes
    ghost var errors: nat
    const limit: nat

    constructor (contents: Bytes, limit: nat)
      ensures this.contents == contents && this.limit == limit && errors == 0
    {
      this.contents, this.limit, errors := contents, limit, 0;
    }

    /** RETRY_FILE around a request that changes the file. However often the request is
        repeated, the file ends as if it had been performed once, or not at all. */
    method Retry(r: Request) returns (result: int)
      modifies this
      ensures result >= 0 ==> (contents, result) == Perform(old(contents), limit, r) && errors == old(errors)
      ensures result < 0 ==> errors == old(errors) + 1
      ensures result < 0 ==> contents == old(contents) || contents == Perform(old(contents), limit, r).0
    {
      var turns: nat := *;
      while turns > 0
        invariant contents == old(contents) || contents == Perform(old(contents), limit, r).0
        invariant errors == old(errors)
      {
        turns := turns - 1;
        PerformTwice(old(contents), limit, r);
        var attempt: Attempt := *;
        match attempt {
          case Unreachable =>
          case ResetBefore =>
          case ResetAfter => contents := Perform(contents, limit, r).0;
          case Refused => errors := errors + 1; return -1;
          case Denied => errors := errors + 1; return -1;
          case Answered =>
            var done := Perform(contents, limit, r);
            contents, result := done.0, done.1;
            if result < 0 { errors := errors + 1; }
            return;
        }
      }
      errors := errors + 1;
      result := -1;
    }

    /** RETRY_FILE around a pread. */
    method RetryPread(length: nat, offset: nat) returns (result: int, data: Bytes)
      modifies this`errors
      ensures result >= 0 ==>
               errors == old(errors) && result == |data| && data == ReadAt(contents, offset, Min(length, limit))
      ensures result < 0 ==> errors == old(errors) + 1
    {
      var turns: nat := *;
      while turns > 0
        invariant errors == old(errors)
      {
        turns := turns - 1;
        var attempt: Attempt := *;
        if attempt == Answered {
          data := ReadAt(contents, offset, Min(length, limit));
          return |data|, data;
        } else if attempt == Refused || attempt == Denied {
          errors := errors + 1;
          return -1, [];
        }
      }
      errors := errors + 1;
      return -1, [];
    }
  }

  /** A read that lies inside the buffered bytes returns what the handle stands for. */
  lemma HeldBytes(contents: Bytes, start: nat, held: Bytes, dirty: bool, offset: nat, n: nat)
    requires start <= offset && offset + n <= start + |held|
    requires !dirty && held != [] ==> start + |held| <= |contents| && held == contents[start..start + |held|]
    ensures var view := if dirty then WriteAt(contents, start, held) else contents;
            n > 0 ==> offset + n <= |view| && ReadAt(view, offset, n) == held[offset - start..offset - start + n]
  {
    if dirty {
      ReadOfWrite(contents, start, held, offset, n);
    } else if n > 0 {
      assert held != [];
      SliceOfSlice(contents, start, start + |held|, offset - start, offset - start + n);
    }
  }

  lemma ReadPrefix(s: Bytes, offset: nat, length: nat, k: nat)
    requires k <= |ReadAt(s, offset, length)|
    ensures ReadAt(s, offset, length)[..k] == ReadAt(s, offset, k)
    ensures k > 0 ==> offset + k <= |s|
  {
  }

  /** Appending to the buffered bytes is writing at their end, also when they were clean. */
  lemma Appended(contents: Bytes, start: nat, held: Bytes, dirty: bool, more: Bytes)
    requires !dirty && held != [] ==> start + |held| <= |contents| && held == contents[start..start + |held|]
    ensures var view := if dirty then WriteAt(contents, start, held) else contents;
            WriteAt(contents, start, held + more) == WriteAt(view, start + |held|, more)
  {
    if !dirty { WriteBack(contents, start, held); }
    var all := held + more;
    assert all[..|held|] == held && all[|held|..] == more;
    WriteSplit(contents, start, all, |held|);
  }

  // ---------------------------------------------------------------------- where the buffer stands

  /** The part of the file that is buffered, nothing if it has no bytes. */
  datatype Window = Window(start: nat, valid: nat)

  const NOTHING := Window(0, 0)

  function Part(start: nat, valid: nat): Window { if valid == 0 then NOTHING else Window(start, valid) }

  function Least(a: nat, b: nat): nat { if a < b then a else b }

  /** How many bytes a file of `n` bytes has behind an offset. */
  function Behind(n: nat, offset: nat): nat { if offset < n then n - offset else 0 }

  lemma ReadLength(s: Bytes, offset: nat, length: nat)
    ensures |ReadAt(s, offset, length)| == Least(length, Behind(|s|, offset))
  {
  }

  /** One turn of the reading loop: the buffer it leaves and the bytes it gets. */
  function ReadOnce(n: nat, blocksize: nat, limit: nat, w: Window, length: nat, offset: nat): (r: (Window, nat))
    ensures r.1 <= length
  {
    if w.valid > 0 && w.start <= offset < w.start + w.valid then (w, Least(length, w.start + w.valid - offset))
    else if length <= blocksize then
      var got := Least(blocksize, Behind(n, offset));
      (Part(offset, got), Least(got, length))
    else (NOTHING, Least(Least(length, limit), Behind(n, offset)))
  }

  /** The buffer after a read. */
  function ReadWindow(n: nat, blocksize: nat, limit: nat, w: Window, length: nat, offset: nat): Window
    decreases length
  {
    if length == 0 then w
    else
      var (v, got) := ReadOnce(n, blocksize, limit, w, length, offset);
      if got == 0 then v else ReadWindow(n, blocksize, limit, v, length - got, offset + got)
  }

  /** `goal` is the buffer after the rest of a read. */
  ghost predicate ReadsTo(n: nat, blocksize: nat, limit: nat, w: Window, length: int, offset: nat, goal: Window)
  {
    length >= 0 && ReadWindow(n, blocksize, limit, w, length, offset) == goal
  }

  lemma ReadsOn(n: nat, blocksize: nat, limit: nat, w: Window, length: nat, offset: nat, goal: Window, v: Window,
                got: nat)
    requires ReadsTo(n, blocksize, limit, w, length, offset, goal) && length > 0
    requires (v, got) == ReadOnce(n, blocksize, limit, w, length, offset)
    ensures got == 0 ==> v == goal
    ensures got > 0 ==> ReadsTo(n, blocksize, limit, v, length - got, offset + got, goal)
  {
  }

  /** The bytes read so far, with the rest of the read leading to `goal`. */
  ghost predicate ReadSoFar(v: Bytes, blocksize: nat, limit: nat, w: Window, length: nat, offset: nat, data: Bytes,
                            goal: Window)
  {
    && |data| <= length && data == ReadAt(v, offset, |data|) && (|data| > 0 ==> offset + |data| <= |v|)
    && ReadsTo(|v|, blocksize, limit, w, length - |data|, offset + |data|, goal)
  }

  lemma ReadNext(v: Bytes, blocksize: nat, limit: nat, w: Window, length: nat, offset: nat, data: Bytes,
                 goal: Window, w': Window, piece: Bytes)
    requires ReadSoFar(v, blocksize, limit, w, length, offset, data, goal) && |data| < length
    requires (w', |piece|) == ReadOnce(|v|, blocksize, limit, w, length - |data|, offset + |data|)
    requires piece == ReadAt(v, offset + |data|, |piece|) && (piece != [] ==> offset + |data| + |piece| <= |v|)
    requires piece == [] ==> offset + |data| >= |v|
    ensures piece == [] ==> w' == goal && data == ReadAt(v, offset, length)
    ensures piece != [] ==> ReadSoFar(v, blocksize, limit, w', length, offset, data + piece, goal)
  {
    ReadsOn(|v|, blocksize, limit, w, length - |data|, offset + |data|, goal, w', |piece|);
    ReadMore(v, offset, length, data, piece);
  }

  lemma ReadMore(v: Bytes, offset: nat, length: nat, data: Bytes, piece: Bytes)
    requires |data| < length && data == ReadAt(v, offset, |data|) && (|data| > 0 ==> offset + |data| <= |v|)
    requires piece == ReadAt(v, offset + |data|, |piece|) && (piece != [] ==> offset + |data| + |piece| <= |v|)
    requires piece == [] ==> offset + |data| >= |v|
    ensures piece == [] ==> data == ReadAt(v, offset, length)
    ensures data + piece == ReadAt(v, offset, |data + piece|)
  {
    if piece != [] { ReadSplit(v, offset, |data| + |piece|, |data|); }
  }

  /** One turn of the writing loop. */
  function WriteOnce(blocksize: nat, limit: nat, w: Window, length: nat, offset: nat): (r: (Window, nat))
    requires w.valid <= blocksize
    ensures r.1 <= length && (length < blocksize ==> r.0.valid <= blocksize) && (length >= blocksize ==> r.0 == NOTHING)
  {
    if length >= blocksize then (NOTHING, Least(length, limit))
    else if w.valid > 0 && w.start + w.valid == offset then
      var more := Least(blocksize - w.valid, length);
      (if w.valid + more == blocksize then NOTHING else Window(w.start, w.valid + more), more)
    else (Part(offset, length), length)
  }

  /** The buffer after a write. */
  function WriteWindow(blocksize: nat, limit: nat, w: Window, length: nat, offset: nat): Window
    requires w.valid <= blocksize
    decreases length
  {
    if length == 0 then w
    else
      var (v, put) := WriteOnce(blocksize, limit, w, length, offset);
      if put == 0 then v else WriteWindow(blocksize, limit, v, length - put, offset + put)
  }

  ghost predicate WritesTo(blocksize: nat, limit: nat, w: Window, length: int, offset: nat, goal: Window)
  {
    length >= 0 && w.valid <= blocksize && WriteWindow(blocksize, limit, w, length, offset) == goal
  }

  lemma WritesOn(blocksize: nat, limit: nat, w: Window, length: nat, offset: nat, goal: Window, v: Window, put: nat)
    requires WritesTo(blocksize, limit, w, length, offset, goal) && length > 0
    requires (v, put) == WriteOnce(blocksize, limit, w, length, offset)
    ensures put == 0 ==> v == goal
    ensures put > 0 ==> WritesTo(blocksize, limit, v, length - put, offset + put, goal)
  {
  }

  /** The bytes written so far, with the rest of the write leading to `goal`. */
  ghost predicate WrittenSoFar(v: Bytes, now: Bytes, blocksize: nat, limit: nat, w: Window, data: Bytes, offset: nat,
                               done: nat, goal: Window)
  {
    && done <= |data| && now == WriteAt(v, offset, data[..done])
    && WritesTo(blocksize, limit, w, |data| - done, offset + done, goal)
  }

  lemma WriteOn(v: Bytes, now: Bytes, blocksize: nat, limit: nat, w: Window, data: Bytes, offset: nat,
                done: nat, goal: Window, after: Bytes, w': Window, put: nat)
    requires WrittenSoFar(v, now, blocksize, limit, w, data, offset, done, goal) && done < |data|
    requires (w', put) == WriteOnce(blocksize, limit, w, |data| - done, offset + done)
    requires after == WriteAt(now, offset + done, data[done..][..put])
    ensures put == 0 ==> w' == goal && after == WriteAt(v, offset, data[..done])
    ensures put > 0 ==> WrittenSoFar(v, after, blocksize, limit, w', data, offset, done + put, goal)
  {
    WritesOn(blocksize, limit, w, |data| - done, offset + done, goal, w', put);
    WriteNext(v, offset, data, done, put);
  }

  class ChirpFile {
    const blocksize: nat
    const buffer: array<byte>
    const remote: Remote
    var bufferOffset: nat
    var bufferValid: nat
    var bufferDirty: bool

    /** A clean buffer repeats what the remote file holds. */
    ghost predicate Coherent()
      reads this, buffer, remote
    {
      && 0 < blocksize <= remote.limit && buffer.Length == blocksize
      && bufferValid <= blocksize
      && (bufferDirty ==> 0 < bufferValid)
      && (!bufferDirty && bufferValid > 0 ==>
            && bufferOffset + bufferValid <= |remote.contents|
            && buffer[..bufferValid] == remote.contents[bufferOffset..bufferOffset + bufferValid])
    }

    /** Between calls a dirty buffer is never full. */
    ghost predicate Valid()
      reads this, buffer, remote
    {
      Coherent() && (bufferDirty ==> bufferValid < blocksize)
    }

    /** The plain byte array the handle stands for: the remote file under the unsaved bytes. */
    ghost function View(): Bytes
      requires Coherent()
      reads this, buffer, remote
    {
      if bufferDirty then WriteAt(remote.contents, bufferOffset, buffer[..bufferValid]) else remote.contents
    }

    /** A short write lands right behind a completely filled read buffer: there is no room
        to append and the buffer is written back unchanged instead. */
    ghost predicate Stalls(length: nat, offset: nat)
      reads this
    {
      0 < length < blocksize && bufferValid == blocksize && bufferOffset + blocksize == offset
    }

    ghost function Buffered(): Window
      reads this
    {
      Part(bufferOffset, bufferValid)
    }

    constructor (remote: Remote, blocksize: nat)
      requires 0 < blocksize <= remote.limit
      ensures Valid() && View() == remote.contents
      ensures this.remote == remote && this.blocksize == blocksize && fresh(buffer)
    {
      this.remote, this.blocksize := remote, blocksize;
      buffer := new byte[blocksize];
      bufferOffset, bufferValid, bufferDirty := 0, 0, false;
    }

    /** Copies `data` into the buffer from index `start`. */
    method Fill(start: nat, data: Bytes)
      requires start + |data| <= buffer.Length
      modifies buffer
      ensures buffer[..start] == old(buffer[..start])
      ensures buffer[start..start + |data|] == data
      ensures buffer[..start + |data|] == old(buffer[..start]) + data
    {
      forall i | 0 <= i < |data| {
        buffer[start + i] := data[i];
      }
    }

    /** `chirp_reli_flush`: empties the buffer whatever the write returned. */
    method Flush() returns (result: int)
      requires Coherent()
      modifies this, remote
      ensures Valid() && bufferValid == 0 && !bufferDirty
      ensures result < 0 <==> remote.errors != old(remote.errors)
      ensures remote.errors >= old(remote.errors)
      ensures remote.errors == old(remote.errors) ==> View() == remote.contents == old(View())
      ensures remote.contents == old(remote.contents) || remote.contents == old(View())
    {
      if bufferValid > 0 && bufferDirty {
        assert buffer[..bufferValid][..Min(bufferValid, remote.limit)] == buffer[..bufferValid];
        result := remote.Retry(PwriteRequest(buffer[..bufferValid], bufferOffset));
      } else {
        result := 0;
      }
      bufferValid, bufferDirty, bufferOffset := 0, false, 0;
    }

    /** `chirp_reli_pread_buffered`. */
    method PreadBuffered(length: nat, offset: nat) returns (result: int, data: Bytes)
      requires Valid() && length > 0
      modifies this, buffer, remote
      ensures Valid() && remote.errors >= old(remote.errors)
      ensures result > 0 ==> result == |data| <= length
      ensures remote.errors == old(remote.errors) ==>
                && View() == old(View())
                && result >= 0 && result == |data| <= length
                && data == ReadAt(View(), offset, result)
                && (result == 0 ==> offset >= |View()|)
                && (result > 0 ==> offset + result <= |View()|)
                && (Buffered(), result) == ReadOnce(|View()|, blocksize, remote.limit, old(Buffered()), length, offset)
    {
      if bufferValid > 0 && bufferOffset <= offset < bufferOffset + bufferValid {
        result, data := PreadHeld(length, offset);
        return;
      }
      var flushed := Flush();
      result, data := PreadMissed(length, offset);
    }

    /** A read that begins inside the buffer. */
    method PreadHeld(length: nat, offset: nat) returns (result: int, data: Bytes)
      requires Valid() && length > 0 && bufferOffset <= offset < bufferOffset + bufferValid
      ensures result == |data| == Least(length, bufferOffset + bufferValid - offset)
      ensures data == ReadAt(View(), offset, result) && offset + result <= |View()|
    {
      result := Min(length, bufferOffset + bufferValid - offset);
      data := buffer[..bufferValid][offset - bufferOffset..offset - bufferOffset + result];
      HeldBytes(remote.contents, bufferOffset, buffer[..bufferValid], bufferDirty, offset, result);
    }

    /** The part of `chirp_reli_pread_buffered` behind the flush. */
    method PreadMissed(length: nat, offset: nat) returns (result: int, data: Bytes)
      requires Valid() && length > 0 && bufferValid == 0
      modifies this, buffer, remote`errors
      ensures Valid() && !bufferDirty && remote.errors >= old(remote.errors)
      ensures result > 0 ==> result == |data| <= length
      ensures result < 0 <==> remote.errors != old(remote.errors)
      ensures result >= 0 ==>
                && result == |data| <= length
                && data == ReadAt(remote.contents, offset, result)
                && (result == 0 ==> offset >= |remote.contents|)
                && (result > 0 ==> offset + result <= |remote.contents|)
                && (Buffered(), result) == ReadOnce(|remote.contents|, blocksize, remote.limit, NOTHING, length, offset)
    {
      if length <= blocksize {
        result, data := PreadBlock(length, offset);
      } else {
        result, data := remote.RetryPread(length, offset);
        if result >= 0 {
          ReadPrefix(remote.contents, offset, Min(length, remote.limit), result);
          ReadLength(remote.contents, offset, Min(length, remote.limit));
        }
      }
    }

    /** A block is read into the buffer. */
    method PreadBlock(length: nat, offset: nat) returns (result: int, data: Bytes)
      requires Valid() && 0 < length <= blocksize && bufferValid == 0
      modifies this, buffer, remote`errors
      ensures Valid() && !bufferDirty && remote.errors >= old(remote.errors)
      ensures result < 0 <==> remote.errors != old(remote.errors)
      ensures result >= 0 ==>
                && result == |data| <= length
                && data == ReadAt(remote.contents, offset, result)
                && (result == 0 ==> offset >= |remote.contents|)
                && (result > 0 ==> offset + result <= |remote.contents|)
                && Buffered() == Part(offset, Least(blocksize, Behind(|remote.contents|, offset)))
                && result == Least(Least(blocksize, Behind(|remote.contents|, offset)), length)
    {
      var got, block := remote.RetryPread(blocksize, offset);
      if got < 0 {
        bufferOffset, bufferValid, bufferDirty := 0, 0, false;
        return got, [];
      }
      Fill(0, block);
      bufferOffset, bufferValid, bufferDirty := offset, got, false;
      assert buffer[..got] == block;
      result := Min(got, length);
      data := block[..result];
      ReadPrefix(remote.contents, offset, blocksize, result);
      ReadLength(remote.contents, offset, blocksize);
    }

    /** `chirp_reli_pread`: exactly the bytes available, up to the requested length. */
    method Pread(length: nat, offset: nat) returns (result: int, data: Bytes)
      requires Valid()
      modifies this, buffer, remote
      ensures Valid() && remote.errors >= old(remote.errors)
      ensures remote.errors == old(remote.errors) ==>
                && View() == old(View())
                && data == ReadAt(View(), offset, length) && result == |data|
                && Buffered() == ReadWindow(|View()|, blocksize, remote.limit, old(Buffered()), length, offset)
    {
      data := [];
      var actual: int := 0;
      ghost var v := View();
      ghost var goal := ReadWindow(|v|, blocksize, remote.limit, Buffered(), length, offset);
      while |data| < length
        invariant Valid() && |data| <= length
        invariant remote.errors >= old(remote.errors)
        invariant remote.errors == old(remote.errors) ==>
                    && View() == v && actual >= 0 && (|data| == 0 ==> actual == 0)
                    && ReadSoFar(v, blocksize, remote.limit, Buffered(), length, offset, data, goal)
        decreases length - |data|
      {
        actual, data := PreadTurn(length, offset, data, v, goal, remote.errors == old(remote.errors));
        if actual <= 0 { break; }
      }
      result := if |data| > 0 then |data| else actual;
    }

    /** The body of its loop; `ok`: there was no error before. */
    method PreadTurn(length: nat, offset: nat, data: Bytes, ghost v: Bytes, ghost goal: Window, ghost ok: bool)
      returns (actual: int, more: Bytes)
      requires Valid() && |data| < length
      requires ok ==> View() == v && ReadSoFar(v, blocksize, remote.limit, Buffered(), length, offset, data, goal)
      modifies this, buffer, remote
      ensures Valid() && remote.errors >= old(remote.errors)
      ensures if actual <= 0 then more == data else |data| < |more| <= length
      ensures ok && remote.errors == old(remote.errors) ==>
                && View() == v && actual >= 0
                && (actual == 0 ==> Buffered() == goal && data == ReadAt(v, offset, length))
                && (actual > 0 ==> ReadSoFar(v, blocksize, remote.limit, Buffered(), length, offset, more, goal))
    {
      var piece;
      ghost var w := Buffered();
      actual, piece := PreadBuffered(length - |data|, offset + |data|);
      if ok && remote.errors == old(remote.errors) {
        ReadNext(v, blocksize, remote.limit, w, length, offset, data, goal, Buffered(), piece);
      }
      more := if actual <= 0 then data else data + piece;
    }

    /** `chirp_reli_pwrite_buffered`. */
    method PwriteBuffered(data: Bytes, offset: nat) returns (result: int)
      requires Valid() && |data| > 0
      modifies this, buffer, remote
      ensures Valid() && remote.errors >= old(remote.errors)
      ensures result <= |data|
      ensures result < 0 ==> remote.errors != old(remote.errors)
      ensures remote.errors == old(remote.errors) ==>
                && result >= 0
                && View() == WriteAt(old(View()), offset, data[..result])
                && (result == 0 <==> old(Stalls(|data|, offset)))
                && (result < |data| ==> bufferValid == 0) && bufferValid < blocksize
                && (Buffered(), result) == WriteOnce(blocksize, remote.limit, old(Buffered()), |data|, offset)
    {
      if |data| >= blocksize {
        var flushed := Flush();
        if flushed < 0 { return -1; }
        result := remote.Retry(PwriteRequest(data, offset));
        return;
      }
      if bufferValid > 0 {
        if bufferOffset + bufferValid == offset {
          result := Append(data, offset);
          return;
        }
        var flushed := Flush();
        if flushed < 0 { return -1; }
      }
      Fill(0, data);
      bufferOffset, bufferValid, bufferDirty := offset, |data|, true;
      assert buffer[..bufferValid] == data && data[..|data|] == data;
      result := |data|;
    }

    /** The branch of `chirp_reli_pwrite_buffered` that extends the buffer in place. */
    method Append(data: Bytes, offset: nat) returns (result: int)
      requires Valid() && 0 < |data| < blocksize && bufferValid > 0 && bufferOffset + bufferValid == offset
      modifies this, buffer, remote
      ensures Valid() && remote.errors >= old(remote.errors)
      ensures result <= |data|
      ensures result < 0 ==> remote.errors != old(remote.errors)
      ensures remote.errors == old(remote.errors) ==>
                && result >= 0
                && View() == WriteAt(old(View()), offset, data[..result])
                && (result == 0 <==> old(bufferValid) == blocksize)
                && (result < |data| ==> bufferValid == 0) && bufferValid < blocksize
                && (Buffered(), result) == WriteOnce(blocksize, remote.limit, old(Buffered()), |data|, offset)
    {
      result := Min(blocksize - bufferValid, |data|);
      Extend(data[..result]);
      if bufferValid == blocksize {
        var flushed := Flush();
        if flushed < 0 { return -1; }
      }
    }

    method Extend(more: Bytes)
      requires Valid() && 0 < bufferValid && bufferValid + |more| <= blocksize
      modifies this, buffer
      ensures Coherent() && bufferDirty
      ensures bufferOffset == old(bufferOffset) && bufferValid == old(bufferValid) + |more|
      ensures View() == WriteAt(old(View()), old(bufferOffset + bufferValid), more)
    {
      ghost var held := buffer[..bufferValid];
      Appended(remote.contents, bufferOffset, held, bufferDirty, more);
      assert View() == if bufferDirty then WriteAt(remote.contents, bufferOffset, held) else remote.contents;
      Fill(bufferValid, more);
      bufferValid := bufferValid + |more|;
      bufferDirty := true;
      assert buffer[..bufferValid] == held + more;
    }

    /** `chirp_reli_pwrite`: the whole of `data`, or nothing when it stalls behind a full read
        buffer. After a stall the buffer is empty, so the same call goes through. */
    method Pwrite(data: Bytes, offset: nat) returns (result: int)
      requires Valid()
      modifies this, buffer, remote
      ensures Valid() && remote.errors >= old(remote.errors)
      ensures remote.errors == old(remote.errors) ==>
                && result == (if old(Stalls(|data|, offset)) then 0 else |data|)
                && View() == WriteAt(old(View()), offset, data[..result])
                && (old(Stalls(|data|, offset)) ==> bufferValid == 0)
                && Buffered() == WriteWindow(blocksize, remote.limit, old(Buffered()), |data|, offset)
    {
      var done: nat, actual: int := 0, 0;
      ghost var v := View();
      ghost var stalls := Stalls(|data|, offset);
      ghost var goal := WriteWindow(blocksize, remote.limit, Buffered(), |data|, offset);
      while done < |data|
        invariant Valid() && done <= |data| && (done == 0 ==> actual == 0)
        invariant remote.errors >= old(remote.errors)
        invariant done == 0 ==> bufferValid == old(bufferValid) && bufferOffset == old(bufferOffset)
        invariant remote.errors == old(remote.errors) && done > 0 ==> !stalls && (done < |data| ==> bufferValid == 0)
        invariant remote.errors == old(remote.errors) ==>
                    WrittenSoFar(v, View(), blocksize, remote.limit, Buffered(), data, offset, done, goal)
        decreases |data| - done
      {
        actual := PwriteTurn(data, offset, done, v, goal, remote.errors == old(remote.errors));
        if actual <= 0 { break; }
        done := done + actual;
      }
      result := if done > 0 then done else actual;
      assert data[..|data|] == data;
    }

    /** The body of its loop; `ok`: there was no error before. */
    method PwriteTurn(data: Bytes, offset: nat, done: nat, ghost v: Bytes, ghost goal: Window, ghost ok: bool)
      returns (actual: int)
      requires Valid() && done < |data|
      requires ok ==> WrittenSoFar(v, View(), blocksize, remote.limit, Buffered(), data, offset, done, goal)
      modifies this, buffer, remote
      ensures Valid() && remote.errors >= old(remote.errors) && actual <= |data| - done
      ensures ok && remote.errors == old(remote.errors) ==>
                && actual >= 0 && (actual == 0 <==> old(Stalls(|data| - done, offset + done)))
                && (actual < |data| - done ==> bufferValid == 0)
                && (actual == 0 ==> Buffered() == goal && View() == WriteAt(v, offset, data[..done]))
                && (actual > 0 ==>
                      WrittenSoFar(v, View(), blocksize, remote.limit, Buffered(), data, offset, done + actual, goal))
    {
      ghost var w, before := Buffered(), View();
      actual := PwriteBuffered(data[done..], offset + done);
      if ok && remote.errors == old(remote.errors) {
        WriteOn(v, before, blocksize, remote.limit, w, data, offset, done, goal, View(), Buffered(), actual);
      }
    }

    /** `chirp_reli_swrite` and `chirp_reli_ftruncate`: flush first, whatever it returns. */
    method Send(r: Request) returns (result: int)
      requires Valid()
      modifies this, remote
      ensures Valid() && remote.errors >= old(remote.errors)
      ensures remote.errors == old(remote.errors) ==>
                (View(), result) == Perform(old(View()), remote.limit, r) && bufferValid == 0
      ensures remote.errors == old(remote.errors) ==> PerformTells(old(View()), remote.limit, r, View(), result)
    {
      PerformIsTold(View(), remote.limit, r);
      var flushed := Flush();
      result := remote.Retry(r);
    }

    /** The flush of `chirp_reli_close`. */
    method Close() returns (result: int)
      requires Valid()
      modifies this, remote
      ensures Valid() && remote.errors >= old(remote.errors)
      ensures result == 0 <==> remote.errors == old(remote.errors)
      ensures result == 0 ==> remote.contents == old(View())
    {
      result := Flush();
      if result >= 0 { result := 0; } else { result := -1; }
    }
  }

  datatype Op =
    | Read(length: nat, offset: nat)
    | Write(data: Bytes, offset: nat)
    | Change(request: Request)
    | Sync

  datatype Seen = Data(bytes: Bytes) | Count(n: int)

  /** What one operation shows on a plain byte array, and what it leaves. A write takes all of its bytes or none:
      none exactly if it is shorter than a block and begins where a filled read buffer ends. */
  ghost predicate Plain(before: Bytes, limit: nat, blocksize: nat, w: Window, op: Op, seen: Seen, after: Bytes)
  {
    match op
    case Read(length, offset) => seen == Data(ReadAt(before, offset, length)) && after == before
    case Write(data, offset) =>
      if 0 < |data| < blocksize && Fills(w, blocksize, offset) then seen == Count(0) && after == before
      else seen == Count(|data|) && after == WriteAt(before, offset, data)
    case Change(r) => seen.Count? && (after, seen.n) == Perform(before, limit, r)
    case Sync => seen == Count(0) && after == before
  }

  /** A filled buffer that ends at `offset`. */
  predicate Fills(w: Window, blocksize: nat, offset: nat) { w.valid == blocksize && w.start + blocksize == offset }

  /** Where the buffer stands after an operation on a file of `n` bytes. */
  function Moved(n: nat, limit: nat, blocksize: nat, w: Window, op: Op): Window
    requires w.valid <= blocksize
  {
    match op
    case Read(length, offset) => ReadWindow(n, blocksize, limit, w, length, offset)
    case Write(data, offset) => WriteWindow(blocksize, limit, w, |data|, offset)
    case _ => NOTHING
  }

  /** The observations and states of a run, with the buffer's place before and after every operation. */
  ghost predicate Run(limit: nat, blocksize: nat, ops: seq<Op>, seen: seq<Seen>, states: seq<Bytes>,
                      windows: seq<Window>)
    requires |seen| <= |ops| && |states| == |seen| + 1 == |windows|
  {
    forall i :: 0 <= i < |seen| ==>
      && windows[i].valid <= blocksize
      && Plain(states[i], limit, blocksize, windows[i], ops[i], seen[i], states[i + 1])
      && windows[i + 1] == Moved(|states[i]|, limit, blocksize, windows[i], ops[i])
  }

  lemma RunNext(limit: nat, blocksize: nat, ops: seq<Op>, seen: seq<Seen>, states: seq<Bytes>, windows: seq<Window>,
                shown: Seen, state: Bytes, window: Window)
    requires |seen| < |ops| && |states| == |seen| + 1 == |windows| && windows[|seen|].valid <= blocksize
    requires Run(limit, blocksize, ops, seen, states, windows)
    requires Plain(states[|seen|], limit, blocksize, windows[|seen|], ops[|seen|], shown, state)
    requires window == Moved(|states[|seen|]|, limit, blocksize, windows[|seen|], ops[|seen|])
    ensures Run(limit, blocksize, ops, seen + [shown], states + [state], windows + [window])
  {
  }

  /** Every run of a handle without a failed request looks like a run on a plain byte array, and closing it leaves the
      remote file equal to that array. What is observed is determined by the operations, the file and the place of the
      buffer at the start. */
  method Session(file: ChirpFile, ops: seq<Op>)
    returns (seen: seq<Seen>, ghost states: seq<Bytes>, ghost windows: seq<Window>, closed: int)
    requires file.Valid()
    modifies file, file.buffer, file.remote
    ensures file.remote.errors == old(file.remote.errors) ==>
              && closed == 0 && |seen| == |ops| && |states| == |windows| == |ops| + 1
              && states[0] == old(file.View()) && file.remote.contents == states[|ops|]
              && windows[0] == old(file.Buffered())
              && Run(file.remote.limit, file.blocksize, ops, seen, states, windows)
  {
    seen, states, windows := [], [file.View()], [file.Buffered()];
    for i := 0 to |ops|
      invariant file.Valid() && |seen| == i && |states| == |windows| == i + 1
      invariant file.remote.errors >= old(file.remote.errors)
      invariant states[0] == old(file.View()) && windows[0] == old(file.Buffered())
      invariant file.remote.errors == old(file.remote.errors) ==>
                  && states[i] == file.View() && windows[i] == file.Buffered()
                  && Run(file.remote.limit, file.blocksize, ops, seen, states, windows)
    {
      var shown := Operate(file, ops[i]);
      if file.remote.errors == old(file.remote.errors) {
        RunNext(file.remote.limit, file.blocksize, ops, seen, states, windows, shown, file.View(), file.Buffered());
      }
      seen, states, windows := seen + [shown], states + [file.View()], windows + [file.Buffered()];
    }
    closed := file.Close();
  }

  /** One operation of a session. */
  method Operate(file: ChirpFile, op: Op) returns (seen: Seen)
    requires file.Valid()
    modifies file, file.buffer, file.remote
    ensures file.Valid() && file.remote.errors >= old(file.remote.errors)
    ensures file.remote.errors == old(file.remote.errors) ==>
              && Plain(old(file.View()), file.remote.limit, file.blocksize, old(file.Buffered()), op, seen, file.View())
              && file.Buffered() ==
                   Moved(|old(file.View())|, file.remote.limit, file.blocksize, old(file.Buffered()), op)
  {
    match op
    case Read(length, offset) =>
      var r, data := file.Pread(length, offset);
      seen := Data(data);
    case Write(data, offset) =>
      assert data[..|data|] == data && data[..0] == [];
      var r := file.Pwrite(data, offset);
      seen := Count(r);
    case Change(request) =>
      var r := file.Send(request);
      seen := Count(r);
    case Sync =>
      var r := file.Flush();
      seen := Count(0);
  }

  /** A write that took no byte is followed by writes that take all of theirs. */
  lemma StallsOnce(limit: nat, blocksize: nat, ops: seq<Op>, seen: seq<Seen>, states: seq<Bytes>,
                   windows: seq<Window>, i: nat)
    requires |seen| <= |ops| && |states| == |seen| + 1 == |windows| && i + 1 < |seen| && blocksize > 0
    requires Run(limit, blocksize, ops, seen, states, windows)
    requires ops[i].Write? && ops[i].data != [] && seen[i] == Count(0) && ops[i + 1].Write?
    ensures seen[i + 1] == Count(|ops[i + 1].data|)
    ensures states[i + 2] == WriteAt(states[i + 1], ops[i + 1].offset, ops[i + 1].data)
  {
    assert Plain(states[i], limit, blocksize, windows[i], ops[i], seen[i], states[i + 1]);
    assert windows[i + 1] == Moved(|states[i]|, limit, blocksize, windows[i], ops[i]);
    assert Plain(states[i + 1], limit, blocksize, windows[i + 1], ops[i + 1], seen[i + 1], states[i + 2]);
  }

  /** Two runs of the same operations from the same file and buffer show the same. */
  lemma {:induction false} RunsAgree(limit: nat, blocksize: nat, ops: seq<Op>,
                                     xs: seq<Seen>, fs: seq<Bytes>, us: seq<Window>,
                                     ys: seq<Seen>, gs: seq<Bytes>, vs: seq<Window>, i: nat)
    requires |xs| == |ops| == |ys| && |fs| == |gs| == |us| == |vs| == |ops| + 1 && i <= |ops|
    requires Run(limit, blocksize, ops, xs, fs, us) && Run(limit, blocksize, ops, ys, gs, vs)
    requires fs[0] == gs[0] && us[0] == vs[0]
    ensures fs[i] == gs[i] && us[i] == vs[i] && xs[..i] == ys[..i]
  {
    if i == 0 {
    } else {
      RunsAgree(limit, blocksize, ops, xs, fs, us, ys, gs, vs, i - 1);
      assert Plain(fs[i - 1], limit, blocksize, us[i - 1], ops[i - 1], xs[i - 1], fs[i]);
      assert Plain(gs[i - 1], limit, blocksize, vs[i - 1], ops[i - 1], ys[i - 1], gs[i]);
      assert xs[..i] == xs[..i - 1] + [xs[i - 1]] && ys[..i] == ys[..i - 1] + [ys[i - 1]];
    }
  }
}

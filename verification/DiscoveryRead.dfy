/** The discovery log read: copies the requested part of the log over the request's
    vectors and zeroes the rest of them (nvmf/ctrlr_discovery.c:174-213). */
module DiscoveryRead {
  import opened Scatter

  function ZeroBytes(n: nat): (r: seq<Byte>)
    ensures |r| == n
  {
    seq(n, i => 0)
  }

  /** What the vectors must hold afterwards: the log's window, cut to the room there is,
      then zeros to the end. */
  function Expected(log: seq<Byte>, offset: nat, length: nat, room: nat): (r: seq<Byte>)
    ensures |r| == room
  {
    var w := Window(log, offset, Min(length, room));
    w + ZeroBytes(room - |w|)
  }

  /** The read is a generic scatter copy into zeroed vectors. */
  lemma {:induction false} ExpectedIsCopyIntoZeros(log: seq<Byte>, offset: nat, length: nat, room: nat)
    ensures var w := Window(log, offset, Min(length, room));
            Expected(log, offset, length, room) == WriteAt(ZeroBytes(room), 0, w)
  {
    WriteAtIs(ZeroBytes(room), 0, Window(log, offset, Min(length, room)));
  }

  /** The vectors held `was`; `done` now fills them up to byte `off` of vector `i`. */
  ghost predicate Filled(iovs: seq<array<Byte>>, was: seq<Byte>, i: nat, off: nat, done: seq<Byte>)
    reads iovs
  {
    && Distinct(iovs) && i <= |iovs| && (if i < |iovs| then off <= iovs[i].Length else off == 0)
    && |was| == Start(Lens(iovs), |iovs|) && |done| == Start(Lens(iovs), i) + off <= |was|
    && Flat(iovs) == WriteAt(was, 0, done)
  }

  lemma FilledNothing(iovs: seq<array<Byte>>)
    requires Distinct(iovs) && iovs != []
    ensures Filled(iovs, Flat(iovs), 0, 0, [])
  {
    StartEnd(Contents(iovs), Lens(iovs));
  }

  lemma FilledVector(iovs: seq<array<Byte>>, was: seq<Byte>, i: nat, done: seq<Byte>)
    requires i < |iovs| && Filled(iovs, was, i, iovs[i].Length, done)
    ensures Filled(iovs, was, i + 1, 0, done)
  {
    StartStep(Lens(iovs), i);
  }

  lemma FilledAll(iovs: seq<array<Byte>>, was: seq<Byte>, done: seq<Byte>)
    requires Filled(iovs, was, |iovs|, 0, done)
    ensures |done| == |was| && Flat(iovs) == done
  {
    WriteAtIs(was, 0, done);
  }

  /** One store at the end of what is filled. */
  method Append(iovs: seq<array<Byte>>, i: nat, off: nat, piece: seq<Byte>, ghost was: seq<Byte>, ghost done: seq<Byte>)
    requires Filled(iovs, was, i, off, done) && i < |iovs| && off + |piece| <= iovs[i].Length
    modifies iovs[i]
    ensures Filled(iovs, was, i, off + |piece|, done + piece)
  {
    StartStep(Lens(iovs), i);
    StartMonotone(Lens(iovs), i + 1, |iovs|);
    WriteAtTwice(was, 0, done, piece);
    StoreAt(iovs, i, off, piece);
  }

  /** Zeroes the rest of vector `i` and goes on to the next one. */
  method ZeroVector(iovs: seq<array<Byte>>, i: nat, off: nat, ghost was: seq<Byte>, ghost done: seq<Byte>, ghost zeros: nat)
    requires i < |iovs| && off <= iovs[i].Length && Filled(iovs, was, i, off, done + ZeroBytes(zeros))
    modifies iovs[i]
    ensures Filled(iovs, was, i + 1, 0, done + ZeroBytes(zeros + iovs[i].Length - off))
  {
    var zeroLen := iovs[i].Length - off;
    ZerosAppend(done, zeros, zeroLen);
    Append(iovs, i, off, ZeroBytes(zeroLen), was, done + ZeroBytes(zeros));
    FilledVector(iovs, was, i, done + ZeroBytes(zeros + zeroLen));
  }

  lemma ZerosAppend(done: seq<Byte>, m: nat, n: nat)
    ensures done + ZeroBytes(m) + ZeroBytes(n) == done + ZeroBytes(m + n)
  {}

  /** Everything from byte `off` of vector `i` to the end of the list becomes zero. */
  method ZeroRest(iovs: seq<array<Byte>>, i: nat, off: nat, ghost was: seq<Byte>, ghost done: seq<Byte>)
    requires Filled(iovs, was, i, off, done) && i < |iovs|
    modifies iovs
    ensures |done| <= |was| && Flat(iovs) == done + ZeroBytes(|was| - |done|)
  {
    ghost var zeros: nat := iovs[i].Length - off;
    assert done + ZeroBytes(0) == done;
    hide Filled, ZeroBytes, Distinct;
    ZeroVector(iovs, i, off, was, done, 0);
    for t := i + 1 to |iovs|
      invariant Filled(iovs, was, t, 0, done + ZeroBytes(zeros))
    {
      ZeroVector(iovs, t, 0, was, done, zeros);
      zeros := zeros + iovs[t].Length;
    }
    AllZeros(iovs, was, done, zeros);
  }

  lemma AllZeros(iovs: seq<array<Byte>>, was: seq<Byte>, done: seq<Byte>, zeros: nat)
    requires Filled(iovs, was, |iovs|, 0, done + ZeroBytes(zeros))
    ensures |done| <= |was| && Flat(iovs) == done + ZeroBytes(|was| - |done|)
  {
    FilledAll(iovs, was, done + ZeroBytes(zeros));
    assert zeros == |was| - |done|;
  }

  // Memory as seen from the log page: `space` gives the byte at each 64-bit offset from its
  // start, beginning with the log's own. Behind its end comes whatever follows it in memory,
  // and offsets near the top of the range wrap around to what comes before it.

  const OFFSETS := 0x1_0000_0000_0000_0000

  predicate Holds(space: nat -> Byte, log: seq<Byte>) {
    |log| < OFFSETS && forall i :: 0 <= i < |log| ==> space(i) == log[i]
  }

  function Read(space: nat -> Byte, from: nat, n: nat): (r: seq<Byte>)
    ensures |r| == n && forall k :: 0 <= k < n ==> r[k] == space((from + k) % OFFSETS)
  {
    seq(n, k requires 0 <= k < n => space((from + k) % OFFSETS))
  }

  lemma {:induction false} ReadAppend(space: nat -> Byte, from: nat, m: nat, n: nat)
    ensures Read(space, from, m) + Read(space, (from + m) % OFFSETS, n) == Read(space, from, m + n)
  {
    var left, right := Read(space, from, m), Read(space, (from + m) % OFFSETS, n);
    forall k | 0 <= k < n ensures right[k] == Read(space, from, m + n)[m + k] {
      ModPlus(from + m, k);
    }
  }

  lemma ModPlus(a: nat, k: nat)
    ensures (a % OFFSETS + k) % OFFSETS == (a + k) % OFFSETS
  {}

  /** The copy of one round: the next `n` bytes go to the start of vector `i`. */
  method AppendRead(iovs: seq<array<Byte>>, i: nat, space: nat -> Byte, ghost from: nat, ghost copied: nat,
                    offset: nat, n: nat, ghost was: seq<Byte>)
    requires i < |iovs| && n <= iovs[i].Length && offset == (from + copied) % OFFSETS
    requires Filled(iovs, was, i, 0, Read(space, from, copied))
    modifies iovs[i]
    ensures Filled(iovs, was, i, n, Read(space, from, copied + n))
  {
    ReadAppend(space, from, copied, n);
    Append(iovs, i, 0, Read(space, offset, n), was, Read(space, from, copied));
  }

  /** `log_page_size - offset` in 64 bits. */
  function Remaining(size: nat, offset: nat): nat
    requires offset < OFFSETS
  {
    if offset <= size then size - offset else size + OFFSETS - offset
  }

  /** How much is copied: within the log all there is; from beyond it what the first vector
      takes, unless that reaches around to the log's start: then up to the log's end. */
  function Taken(size: nat, offset: nat, length: nat, first: nat, room: nat): nat
    requires offset < OFFSETS
  {
    if offset > size && offset + Min(first, length) < OFFSETS then Min(first, length)
    else Min(Remaining(size, offset), Min(length, room))
  }

  /** What the vectors hold in the end. */
  function Answer(space: nat -> Byte, size: nat, offset: nat, length: nat, first: nat, room: nat): seq<Byte>
    requires offset < OFFSETS && first <= room
  {
    var n := Taken(size, offset, length, first, room);
    Read(space, offset, n) + ZeroBytes(room - n)
  }

  /** For an offset not beyond the log that is its window and zeros. */
  lemma {:induction false} AnswerIsExpected(space: nat -> Byte, log: seq<Byte>, offset: nat, length: nat, first: nat, room: nat)
    requires Holds(space, log) && offset <= |log| && first <= room
    ensures Answer(space, |log|, offset, length, first, room) == Expected(log, offset, length, room)
  {
    var n := Taken(|log|, offset, length, first, room);
    forall k | 0 <= k < n ensures Read(space, offset, n)[k] == log[offset + k] {
      assert (offset + k) % OFFSETS == offset + k;
    }
    assert Read(space, offset, n) == Window(log, offset, Min(length, room));
  }

  /** An offset beyond the log gets the promised answer, zeros, if and only if the memory that
      is read instead happens to hold zeros. */
  lemma {:induction false} BeyondIsExpectedIff(space: nat -> Byte, log: seq<Byte>, offset: nat, length: nat, first: nat, room: nat)
    requires Holds(space, log) && |log| < offset < OFFSETS && first <= room
    ensures Answer(space, |log|, offset, length, first, room) == Expected(log, offset, length, room)
            <==> Read(space, offset, Taken(|log|, offset, length, first, room)) == ZeroBytes(Taken(|log|, offset, length, first, room))
  {
    var n := Taken(|log|, offset, length, first, room);
    var a := Answer(space, |log|, offset, length, first, room);
    assert Expected(log, offset, length, room) == ZeroBytes(room) == ZeroBytes(n) + ZeroBytes(room - n);
    assert a[..n] == Read(space, offset, n) && ZeroBytes(room)[..n] == ZeroBytes(n);
  }

  /** Between two rounds `copied` bytes have been copied, and the next round, if there is one,
      reads inside the log, or it is the first one. */
  predicate Going(size: nat, from: nat, copied: nat, offset: nat, length: nat, first: nat, tmp: nat) {
    && from < OFFSETS && offset == (from + copied) % OFFSETS && copied <= length
    && if from <= size then offset == from + copied <= size
       else if tmp == 0 then copied == 0
       else from + Min(first, length) >= OFFSETS && from + copied >= OFFSETS && offset == from + copied - OFFSETS <= size
  }

  /** One round over a vector of `len` bytes ends the copy with all that is to be taken, or
      fills the vector. */
  lemma {:induction false} RoundGoes(size: nat, from: nat, copied: nat, offset: nat, length: nat, first: nat, tmp: nat, len: nat, room: nat)
    requires size < OFFSETS && Going(size, from, copied, offset, length, first, tmp) && offset < OFFSETS
    requires copied + len <= room && first <= room && (tmp == 0 ==> copied == 0 && len == first)
    ensures var n := Min(Remaining(size, offset), Min(len, length - copied));
            var offset' := (offset + n) % OFFSETS;
            if size <= offset' || copied + n == length then copied + n == Taken(size, from, length, first, room)
            else n == len && Going(size, from, copied + n, offset', length, first, tmp + 1)
  {
    var n := Min(Remaining(size, offset), Min(len, length - copied));
    if from <= size {
      assert (offset + n) % OFFSETS == offset + n;
    } else if tmp == 0 {
      assert offset == from;
      assert (offset + n) % OFFSETS == if offset + n < OFFSETS then offset + n else offset + n - OFFSETS;
    } else {
      assert (offset + n) % OFFSETS == offset + n;
    }
    ModPlus(from + copied, n);
  }

  lemma PlaceOf(iovs: seq<array<Byte>>, was: seq<Byte>, tmp: nat, done: seq<Byte>)
    requires Filled(iovs, was, tmp, 0, done) && tmp < |iovs|
    ensures |done| + iovs[tmp].Length <= |was| && (tmp == 0 ==> done == [])
  {
    StartStep(Lens(iovs), tmp);
    StartMonotone(Lens(iovs), tmp + 1, |iovs|);
  }

  /** Where the copy of `length0` bytes from `from` on stands before vector `tmp`. */
  ghost predicate Progress(iovs: seq<array<Byte>>, was: seq<Byte>, space: nat -> Byte, size: nat,
                           from: nat, length0: nat, offset: nat, length: nat, tmp: nat)
    reads iovs
  {
    && iovs != [] && size < OFFSETS && offset < OFFSETS && tmp <= |iovs| && length <= length0 && iovs[0].Length <= |was|
    && Going(size, from, length0 - length, offset, length0, iovs[0].Length, tmp)
    && Filled(iovs, was, tmp, 0, Read(space, from, length0 - length))
  }

  /** The first round begins. */
  lemma ProgressBegins(iovs: seq<array<Byte>>, space: nat -> Byte, size: nat, from: nat, length0: nat)
    requires iovs != [] && Distinct(iovs) && size < OFFSETS && from < OFFSETS
    ensures Progress(iovs, Flat(iovs), space, size, from, length0, from, length0, 0)
  {
    FilledNothing(iovs);
    FirstFits(iovs);
    assert Read(space, from, 0) == [];
  }

  /** What one round copies. */
  function CopyLen(size: nat, offset: nat, len: nat, length: nat): (n: nat)
    requires offset < OFFSETS
    ensures n <= len && n <= length
  {
    Min(Remaining(size, offset), Min(len, length))
  }

  lemma ProgressRound(iovs: seq<array<Byte>>, was: seq<Byte>, space: nat -> Byte, size: nat,
                      from: nat, length0: nat, offset: nat, length: nat, tmp: nat)
    requires tmp < |iovs| && Progress(iovs, was, space, size, from, length0, offset, length, tmp)
    ensures length <= length0 && offset < OFFSETS && from < OFFSETS && offset == (from + (length0 - length)) % OFFSETS
    ensures Filled(iovs, was, tmp, 0, Read(space, from, length0 - length))
    ensures var n := CopyLen(size, offset, iovs[tmp].Length, length);
            var offset' := (offset + n) % OFFSETS;
            if size <= offset' || length - n == 0 then length0 - (length - n) == Taken(size, from, length0, iovs[0].Length, |was|)
            else n == iovs[tmp].Length && Going(size, from, length0 - (length - n), offset', length0, iovs[0].Length, tmp + 1)
                 && iovs[0].Length <= |was| && size < OFFSETS
  {
    var copied := length0 - length;
    PlaceOf(iovs, was, tmp, Read(space, from, copied));
    RoundGoes(size, from, copied, offset, length0, iovs[0].Length, tmp, iovs[tmp].Length, |was|);
    hide Filled, Going, Remaining, Taken, Read;
  }

  /** The body of the copy loop up to its test. */
  method CopyRound(iovs: seq<array<Byte>>, ghost was: seq<Byte>, space: nat -> Byte, size: nat,
                   ghost from: nat, ghost length0: nat, offset: nat, length: nat, tmp: nat)
    returns (copyLen: nat, offset': nat, length': nat)
    requires tmp < |iovs| && Progress(iovs, was, space, size, from, length0, offset, length, tmp)
    modifies iovs[tmp]
    ensures length' <= length0 && copyLen <= iovs[tmp].Length
    ensures if size <= offset' || length' == 0 then
              && Filled(iovs, was, tmp, copyLen, Read(space, from, length0 - length'))
              && from < OFFSETS && length0 - length' == Taken(size, from, length0, iovs[0].Length, |was|)
            else Progress(iovs, was, space, size, from, length0, offset', length', tmp + 1)
  {
    ProgressRound(iovs, was, space, size, from, length0, offset, length, tmp);
    hide Filled, Going, Taken, Read, Remaining;
    copyLen := CopyLen(size, offset, iovs[tmp].Length, length);
    AppendRead(iovs, tmp, space, from, length0 - length, offset, copyLen, was);
    offset' := (offset + copyLen) % OFFSETS;
    length' := length - copyLen;
    assert length0 - length + copyLen == length0 - length';
    if size > offset' && length' > 0 {
      FilledVector(iovs, was, tmp, Read(space, from, length0 - length'));
    }
  }

  /** `nvmf_get_discovery_log_page` once the log has been generated. */
  method GetDiscoveryLogPage(ghost log: seq<Byte>, space: nat -> Byte, logPageSize: nat,
                             iovs: seq<array<Byte>>, offset0: nat, length0: nat)
    requires Distinct(iovs) && Holds(space, log) && logPageSize == |log| && offset0 < OFFSETS
    modifies iovs
    ensures iovs == [] || iovs[0].Length <= |old(Flat(iovs))|
    ensures Flat(iovs) == if iovs == [] then [] else Answer(space, |log|, offset0, length0, iovs[0].Length, |old(Flat(iovs))|)
  {
    ghost var was := Flat(iovs);
    if iovs == [] {
      return;
    }
    ProgressBegins(iovs, space, logPageSize, offset0, length0);
    FirstFits(iovs);
    hide Progress, Filled, Answer, Taken;
    var offset, length, tmp := offset0, length0, 0;
    while tmp < |iovs|
      invariant Progress(iovs, was, space, logPageSize, offset0, length0, offset, length, tmp)
    {
      var copyLen;
      copyLen, offset, length := CopyRound(iovs, was, space, logPageSize, offset0, length0, offset, length, tmp);
      if logPageSize <= offset || length == 0 {
        Finish(iovs, tmp, copyLen, space, logPageSize, offset0, length0 - length, length0, was);
        return;
      }
      tmp := tmp + 1;
    }
    Exhausted(iovs, space, logPageSize, offset0, length0, offset, length, was);
  }

  /** The end of the copy: everything after it becomes zero. */
  method Finish(iovs: seq<array<Byte>>, i: nat, off: nat, ghost space: nat -> Byte, ghost size: nat,
                ghost from: nat, ghost copied: nat, ghost length: nat, ghost was: seq<Byte>)
    requires i < |iovs| && from < OFFSETS && copied <= length
    requires Filled(iovs, was, i, off, Read(space, from, copied))
    requires copied == Taken(size, from, length, iovs[0].Length, |was|)
    modifies iovs
    ensures iovs[0].Length <= |was| && Flat(iovs) == Answer(space, size, from, length, iovs[0].Length, |was|)
  {
    FirstFits(iovs);
    SameRoom(iovs, was, i, off, Read(space, from, copied));
    ZeroRest(iovs, i, off, was, Read(space, from, copied));
  }

  lemma SameRoom(iovs: seq<array<Byte>>, was: seq<Byte>, i: nat, off: nat, done: seq<Byte>)
    requires Filled(iovs, was, i, off, done)
    ensures |was| == |Flat(iovs)| && |done| <= |was|
  {
    WriteAtIs(was, 0, done);
  }

  /** All vectors are full. */
  lemma Exhausted(iovs: seq<array<Byte>>, space: nat -> Byte, size: nat, from: nat, length0: nat, offset: nat, length: nat, was: seq<Byte>)
    requires iovs != [] && Progress(iovs, was, space, size, from, length0, offset, length, |iovs|)
    ensures from < OFFSETS && iovs[0].Length <= |was| && Flat(iovs) == Answer(space, size, from, length0, iovs[0].Length, |was|)
  {
    var done := Read(space, from, length0 - length);
    FilledAll(iovs, was, done);
    assert length0 - length == Taken(size, from, length0, iovs[0].Length, |was|);
    assert done + ZeroBytes(0) == done;
  }

  lemma FirstFits(iovs: seq<array<Byte>>)
    requires iovs != [] && Distinct(iovs)
    ensures iovs[0].Length <= |Flat(iovs)|
  {
    StartEnd(Contents(iovs), Lens(iovs));
    StartStep(Lens(iovs), 0);
    StartMonotone(Lens(iovs), 1, |iovs|);
  }
}

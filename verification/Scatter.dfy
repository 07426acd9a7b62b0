/** Scatter lists: the bytes a list of I/O vectors denotes, and the copy cursor that
    fills them in order (nvmf/ctrlr.c:56-104). Everything that writes a log page into
    a request's buffers is specified through `Flat` and `WriteAt`. */
module Scatter {

  type Byte = b: int | 0 <= b < 256

  function Min(a: nat, b: nat): nat { if a <= b then a else b }

  /** The concatenation of all chunks, in order. */
  function Flatten(chunks: seq<seq<Byte>>): seq<Byte> {
    if chunks == [] then [] else chunks[0] + Flatten(chunks[1..])
  }

  /** `s` with the bytes of `d` stored one by one from position `p` on. */
  function WriteAt(s: seq<Byte>, p: nat, d: seq<Byte>): (r: seq<Byte>)
    requires p + |d| <= |s|
    ensures |r| == |s|
    decreases |d|
  {
    if d == [] then s else WriteAt(s[p := d[0]], p + 1, d[1..])
  }

  /** Storing `d` puts exactly `d` at `p` and keeps every other byte. */
  lemma {:induction false} WriteAtIs(s: seq<Byte>, p: nat, d: seq<Byte>)
    requires p + |d| <= |s|
    ensures WriteAt(s, p, d) == s[..p] + d + s[p + |d|..]
    decreases |d|
  {
    if d != [] {
      WriteAtIs(s[p := d[0]], p + 1, d[1..]);
      assert s[p := d[0]][..p + 1] == s[..p] + [d[0]];
      assert s[..p] + [d[0]] + d[1..] == s[..p] + d;
    }
  }

  /** Bytes [offset, offset + length) of `s`, clipped at its end. */
  function Window(s: seq<Byte>, offset: nat, length: nat): seq<Byte> {
    s[Min(offset, |s|)..Min(offset + length, |s|)]
  }

  /** The position in the flattened list at which chunk `i` begins. */
  function Start(lens: seq<nat>, i: nat): nat
    requires i <= |lens|
  {
    if i == 0 then 0 else lens[0] + Start(lens[1..], i - 1)
  }

  lemma {:induction false} WriteAtTwice(s: seq<Byte>, p: nat, d: seq<Byte>, e: seq<Byte>)
    requires p + |d| + |e| <= |s|
    ensures WriteAt(WriteAt(s, p, d), p + |d|, e) == WriteAt(s, p, d + e)
  {
    WriteAtIs(s, p, d);
    WriteAtIs(WriteAt(s, p, d), p + |d|, e);
    WriteAtIs(s, p, d + e);
  }

  lemma WriteNothing(s: seq<Byte>, p: nat, buf: seq<Byte>)
    requires p <= |s|
    ensures WriteAt(s, p, buf[..0]) == s
  {}

  lemma {:induction false} WriteMore(s: seq<Byte>, p: nat, buf: seq<Byte>, copied: nat, len: nat)
    requires copied + len <= |buf| && p + copied + len <= |s|
    ensures WriteAt(WriteAt(s, p, buf[..copied]), p + copied, buf[copied..copied + len])
         == WriteAt(s, p, buf[..copied + len])
  {
    WriteAtTwice(s, p, buf[..copied], buf[copied..copied + len]);
    assert buf[..copied] + buf[copied..copied + len] == buf[..copied + len];
  }

  lemma {:induction false} StartStep(lens: seq<nat>, i: nat)
    requires i < |lens|
    ensures Start(lens, i + 1) == Start(lens, i) + lens[i]
  {
    if i > 0 {
      StartStep(lens[1..], i - 1);
    }
  }

  lemma {:induction false} StartEnd(chunks: seq<seq<Byte>>, lens: seq<nat>)
    requires |lens| == |chunks| && forall k :: 0 <= k < |lens| ==> lens[k] == |chunks[k]|
    ensures |Flatten(chunks)| == Start(lens, |lens|)
  {
    if chunks != [] {
      StartEnd(chunks[1..], lens[1..]);
    }
  }

  lemma {:induction false} StartMonotone(lens: seq<nat>, i: nat, j: nat)
    requires i <= j <= |lens|
    ensures Start(lens, i) <= Start(lens, j)
    decreases j - i
  {
    if i < j {
      StartStep(lens, j - 1);
      StartMonotone(lens, i, j - 1);
    }
  }

  lemma {:induction false} WriteLeft(a: seq<Byte>, rest: seq<Byte>, off: nat, d: seq<Byte>)
    requires off + |d| <= |a|
    ensures WriteAt(a, off, d) + rest == WriteAt(a + rest, off, d)
  {
    WriteAtIs(a, off, d);
    WriteAtIs(a + rest, off, d);
  }

  lemma {:induction false} WriteRight(a: seq<Byte>, rest: seq<Byte>, off: nat, d: seq<Byte>)
    requires off + |d| <= |rest|
    ensures a + WriteAt(rest, off, d) == WriteAt(a + rest, |a| + off, d)
  {
    WriteAtIs(rest, off, d);
    WriteAtIs(a + rest, |a| + off, d);
  }

  /** Writing into one chunk is writing into the flattened list at that chunk's start. */
  lemma {:induction false} WriteChunk(chunks: seq<seq<Byte>>, lens: seq<nat>, i: nat, off: nat, d: seq<Byte>)
    requires |lens| == |chunks| && forall k :: 0 <= k < |lens| ==> lens[k] == |chunks[k]|
    requires i < |chunks| && off + |d| <= |chunks[i]|
    ensures Start(lens, i) + off + |d| <= |Flatten(chunks)|
    ensures Flatten(chunks[i := WriteAt(chunks[i], off, d)]) == WriteAt(Flatten(chunks), Start(lens, i) + off, d)
  {
    var after := chunks[i := WriteAt(chunks[i], off, d)];
    if i == 0 {
      assert after[1..] == chunks[1..];
      WriteLeft(chunks[0], Flatten(chunks[1..]), off, d);
    } else {
      WriteChunk(chunks[1..], lens[1..], i - 1, off, d);
      assert after[1..] == chunks[1..][i - 1 := WriteAt(chunks[i], off, d)];
      WriteRight(chunks[0], Flatten(chunks[1..]), Start(lens[1..], i - 1) + off, d);
    }
  }

  /** A window over a chunk followed by the rest: either the whole chunk is skipped,
      or its tail is taken and the window goes on at the start of the rest. */
  lemma {:induction false} WindowSplit(chunk: seq<Byte>, rest: seq<Byte>, offset: nat, length: nat)
    ensures offset >= |chunk| ==> Window(chunk + rest, offset, length) == Window(rest, offset - |chunk|, length)
    ensures offset < |chunk| ==>
              var n := Min(|chunk| - offset, length);
              Window(chunk + rest, offset, length) == chunk[offset..offset + n] + Window(rest, 0, length - n)
  {
    var s := chunk + rest;
    if offset < |chunk| {
      var n := Min(|chunk| - offset, length);
      assert s[offset..offset + n] == chunk[offset..offset + n];
      if n == length {
        assert Window(rest, 0, 0) == [];
        assert Window(s, offset, length) == chunk[offset..offset + n] + Window(rest, 0, length - n);
      } else {
        var m := Min(length - n, |rest|);
        assert Window(s, offset, length) == s[offset..|chunk| + m];
        assert s[offset..|chunk| + m] == chunk[offset..] + rest[..m];
      }
    } else {
      assert Window(s, offset, length) == Window(rest, offset - |chunk|, length);
    }
  }

  lemma WindowEmpty(s: seq<Byte>, offset: nat)
    ensures Window(s, offset, 0) == []
  {}

  lemma WindowAll(s: seq<Byte>, length: nat)
    requires |s| <= length
    ensures Window(s, 0, length) == s
  {}

  lemma FlattenOne(s: seq<Byte>)
    ensures Flatten([s]) == s
  {
    assert [s][1..] == [] && s + [] == s;
  }

  /** Reading two consecutive windows and concatenating them is reading one. */
  lemma {:induction false} WindowsConcatenate(s: seq<Byte>, offset: nat, m: nat, n: nat)
    ensures Window(s, offset, m) + Window(s, offset + m, n) == Window(s, offset, m + n)
  {
    var a, b, c := Min(offset, |s|), Min(offset + m, |s|), Min(offset + m + n, |s|);
    assert s[a..b] + s[b..c] == s[a..c];
  }

  /** I/O vectors of one request name disjoint memory. */
  ghost predicate Distinct(iovs: seq<array<Byte>>) {
    forall i, j :: 0 <= i < j < |iovs| ==> iovs[i] != iovs[j]
  }

  ghost function Lens(iovs: seq<array<Byte>>): (lens: seq<nat>)
    ensures |lens| == |iovs| && forall k :: 0 <= k < |iovs| ==> lens[k] == iovs[k].Length
  {
    seq(|iovs|, i requires 0 <= i < |iovs| => iovs[i].Length)
  }

  ghost function Contents(iovs: seq<array<Byte>>): (chunks: seq<seq<Byte>>)
    reads iovs
    ensures |chunks| == |iovs| && forall k :: 0 <= k < |iovs| ==> chunks[k] == iovs[k][..]
  {
    seq(|iovs|, i requires 0 <= i < |iovs| reads iovs => iovs[i][..])
  }

  /** The bytes the vectors hold, in order. */
  ghost function Flat(iovs: seq<array<Byte>>): (s: seq<Byte>)
    reads iovs
  {
    Flatten(Contents(iovs))
  }

  /** The `memcpy` of `piece` to byte `off` of vector `i`. */
  method StoreAt(iovs: seq<array<Byte>>, i: nat, off: nat, piece: seq<Byte>)
    requires Distinct(iovs) && i < |iovs| && off + |piece| <= iovs[i].Length
    modifies iovs[i]
    ensures Start(Lens(iovs), i) + off + |piece| <= |old(Flat(iovs))|
    ensures Flat(iovs) == WriteAt(old(Flat(iovs)), Start(Lens(iovs), i) + off, piece)
  {
    ghost var before := Contents(iovs);
    WriteChunk(before, Lens(iovs), i, off, piece);
    WriteAtIs(before[i], off, piece);
    var iov := iovs[i];
    forall k | 0 <= k < |piece| {
      iov[off + k] := piece[k];
    }
    assert iov[..] == WriteAt(before[i], off, piece);
    assert forall k :: 0 <= k < |iovs| && k != i ==> iovs[k] != iov && iovs[k][..] == before[k];
    assert Contents(iovs) == before[i := iov[..]];
  }

  /** Copy cursor over a list of vectors. */
  class CopyCtx {
    const iovs: seq<array<Byte>>
    var curIovIdx: nat
    var curIovOffset: nat

    ghost predicate Valid()
      reads this
    {
      && Distinct(iovs)
      && curIovIdx <= |iovs|
      && (if curIovIdx < |iovs| then curIovOffset <= iovs[curIovIdx].Length else curIovOffset == 0)
    }

    /** How many bytes of the flattened list lie before the cursor. */
    ghost function Pos(): nat
      reads this
      requires Valid()
    {
      Start(Lens(iovs), curIovIdx) + curIovOffset
    }

    constructor (iovs: seq<array<Byte>>)
      requires Distinct(iovs)
      ensures Valid() && this.iovs == iovs && Pos() == 0
    {
      this.iovs := iovs;
      curIovIdx, curIovOffset := 0, 0;
    }

    /** The cursor never passes the end of the list. */
    lemma PosInside()
      requires Valid()
      ensures Pos() <= |Flat(iovs)|
      ensures curIovIdx == |iovs| ==> Pos() == |Flat(iovs)|
      ensures curIovIdx < |iovs| ==> Pos() + iovs[curIovIdx].Length - curIovOffset <= |Flat(iovs)|
    {
      var lens := Lens(iovs);
      StartEnd(Contents(iovs), lens);
      if curIovIdx < |iovs| {
        StartStep(lens, curIovIdx);
        StartMonotone(lens, curIovIdx + 1, |iovs|);
      }
    }

    /** The `memcpy` of one round: `piece` goes to the cursor's place in the current vector. */
    method Store(piece: seq<Byte>)
      requires Valid() && curIovIdx < |iovs| && curIovOffset + |piece| <= iovs[curIovIdx].Length
      modifies this`curIovOffset, iovs[curIovIdx]
      ensures Valid() && curIovOffset == old(curIovOffset) + |piece| && Pos() == old(Pos()) + |piece|
      ensures old(Pos()) + |piece| <= |old(Flat(iovs))|
      ensures Flat(iovs) == WriteAt(old(Flat(iovs)), old(Pos()), piece)
    {
      StoreAt(iovs, curIovIdx, curIovOffset, piece);
      curIovOffset := curIovOffset + |piece|;
    }

    /** Leaves a full vector for the next one; no byte is passed over. */
    method NextIov()
      requires Valid() && curIovIdx < |iovs| && curIovOffset == iovs[curIovIdx].Length
      modifies `curIovIdx, `curIovOffset
      ensures Valid() && curIovIdx == old(curIovIdx) + 1 && curIovOffset == 0 && Pos() == old(Pos())
      ensures Flat(iovs) == old(Flat(iovs))
    {
      StartStep(Lens(iovs), curIovIdx);
      curIovIdx := curIovIdx + 1;
      curIovOffset := 0;
    }

    /** `copied` bytes of `buf` have been stored at position `p` of what was `was`. */
    ghost predicate Copied(was: seq<Byte>, p: nat, buf: seq<Byte>, copied: nat)
      reads this, iovs
    {
      Valid() && copied <= |buf| && Pos() == p + copied <= |was| && Flat(iovs) == WriteAt(was, p, buf[..copied])
    }

    /** One round: either on to the next vector, or a piece into the current one. */
    method Round(ghost was: seq<Byte>, ghost p: nat, buf: seq<Byte>, copied: nat) returns (copied': nat)
      requires curIovIdx < |iovs| && copied < |buf| && Copied(was, p, buf, copied)
      modifies `curIovIdx, `curIovOffset, iovs
      ensures Copied(was, p, buf, copied')
      ensures if curIovIdx == old(curIovIdx) then old(curIovOffset) < curIovOffset <= iovs[curIovIdx].Length
              else curIovIdx == old(curIovIdx) + 1
    {
      var remain := iovs[curIovIdx].Length - curIovOffset;
      if remain == 0 {
        NextIov();
        return copied;
      }
      var len := Min(remain, |buf| - copied);
      PosInside();
      WriteMore(was, p, buf, copied, len);
      Store(buf[copied..copied + len]);
      return copied + len;
    }

    /** `_copy_buf_to_iovs`: puts as much of `buf` as fits at the cursor, across vectors,
        advances by that much and leaves every other byte alone. */
    method CopyBuf(buf: seq<Byte>) returns (copied: nat)
      requires Valid()
      modifies this`curIovIdx, this`curIovOffset, iovs
      ensures Valid()
      ensures old(Pos()) <= |old(Flat(iovs))|
      ensures copied == Min(|buf|, |old(Flat(iovs))| - old(Pos()))
      ensures Pos() == old(Pos()) + copied
      ensures Flat(iovs) == WriteAt(old(Flat(iovs)), old(Pos()), buf[..copied])
    {
      ghost var p, was := Pos(), Flat(iovs);
      PosInside();
      copied := 0;
      WriteNothing(was, p, buf);
      if |buf| == 0 {
        return;
      }
      while curIovIdx < |iovs|
        invariant copied < |buf| && Copied(was, p, buf, copied)
        decreases |iovs| - curIovIdx, if curIovIdx < |iovs| then iovs[curIovIdx].Length - curIovOffset else 0
      {
        copied := Round(was, p, buf, copied);
        if |buf| == copied {
          return;
        }
      }
      PosInside();
    }
  }
}

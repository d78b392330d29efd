/**
 The contents of files: readi and writei of kernel/fs.c and filewrite of kernel/file.c, over the block maps of module
 FileBlocks. A file is a sequence of bytes; and what one chunk of a write passes to the log is bounded.
 */
module FileData {
  import opened Collections
  import opened FileBlocks
  import RedoLog

  const MAXOPBLOCKS := RedoLog.MAXOPBLOCKS

  /** Inodes per block. */
  const IPB: nat := 16

  /** The slot of the block that holds byte i. */
  function SlotAt(ino: nat, i: nat): Slot {
    SlotOf(ino, i / BSIZE)
  }

  function ByteAt(fs: Fs, ino: nat, i: nat): Byte
    requires Shape(fs)
  {
    var b := Ref(fs, SlotAt(ino, i));
    if 0 < b < |fs.blocks| then fs.blocks[b].bytes[i % BSIZE] else 0
  }

  predicate Mapped(fs: Fs, ino: nat, i: nat)
    requires Shape(fs)
  {
    Ref(fs, SlotAt(ino, i)) != 0
  }

  /** Every byte of the file is in a block: there are no holes. */
  ghost predicate FileOk(fs: Fs, ino: nat)
    requires Shape(fs) && ino in fs.inodes
  {
    && fs.inodes[ino].size <= MAXFILE * BSIZE
    && forall i :: 0 <= i < fs.inodes[ino].size ==> Mapped(fs, ino, i)
  }

  ghost predicate Wf(fs: Fs) {
    Owned(fs) && forall ino :: ino in fs.inodes ==> FileOk(fs, ino)
  }

  /** A disk with no blocks in files yet. */
  lemma FormattedWf(fs: Fs)
    requires Shape(fs) && fs.owner == map[] && forall b :: 0 <= b < |fs.used| ==> (fs.used[b] <==> b < fs.dataStart)
    requires forall j :: j in fs.inodes ==> fs.inodes[j] == Inode(seq(NDIRECT + 1, _ => 0), 0)
    ensures Wf(fs)
  {
    forall t
      ensures SlotOk(fs, t)
    {
      assert t.ino in fs.inodes ==> fs.inodes[t.ino] == Inode(seq(NDIRECT + 1, _ => 0), 0);
    }
  }

  function Contents(fs: Fs, ino: nat): seq<Byte>
    requires Shape(fs) && ino in fs.inodes
  {
    seq(fs.inodes[ino].size, i requires 0 <= i => ByteAt(fs, ino, i))
  }

  /** data written over s from off on, which may lengthen it. */
  function Spliced(s: seq<Byte>, off: nat, data: seq<Byte>): seq<Byte>
    requires off <= |s|
  {
    s[..off] + data + (if off + |data| < |s| then s[off + |data|..] else [])
  }

  // Writing.

  function PutBytes(b: Block, o: nat, data: seq<Byte>): Block
    requires WfBlock(b) && o + |data| <= BSIZE
  {
    Block(b.bytes[..o] + data + b.bytes[o + |data|..])
  }

  /** Byte i of file j is as it was. */
  predicate Same(fs0: Fs, fs: Fs, j: nat, i: nat)
    requires Shape(fs0) && Shape(fs)
  {
    ByteAt(fs, j, i) == ByteAt(fs0, j, i)
  }

  predicate Wrote(fs: Fs, ino: nat, off: nat, data: seq<Byte>, i: nat)
    requires Shape(fs) && off <= i < off + |data|
  {
    Mapped(fs, ino, i) && ByteAt(fs, ino, i) == data[i - off]
  }

  ghost predicate RefsKept(fs0: Fs, fs: Fs, ino: nat)
    requires Shape(fs0) && Shape(fs)
  {
    forall t :: Ref(fs0, t) != 0 || t.ino != ino ==> Ref(fs, t) == Ref(fs0, t)
  }

  /** From fs0, data has been written to the file from off on, and nothing that was mapped has changed otherwise. */
  ghost predicate Partial(fs0: Fs, fs: Fs, ino: nat, off: nat, data: seq<Byte>) {
    && Owned(fs0) && Owned(fs) && SameFiles(fs0, fs, ino) && RefsKept(fs0, fs, ino)
    && (forall i :: off <= i < off + |data| ==> Wrote(fs, ino, off, data, i))
    && (forall j: nat, i: nat :: Mapped(fs0, j, i) && !(j == ino && off <= i < off + |data|) ==> Same(fs0, fs, j, i))
  }

  lemma PartialStart(fs: Fs, ino: nat, off: nat)
    requires Owned(fs) && ino in fs.inodes
    ensures Partial(fs, fs, ino, off, [])
  {
  }

  /** A block in a data slot keeps its number and its contents. */
  lemma BmapByte(fs: Fs, ino: nat, bn: nat, j: nat, i: nat)
    requires Owned(fs) && ino in fs.inodes && bn < MAXFILE && Mapped(fs, j, i)
    ensures var fs' := Bmapped(fs, ino, bn); Shape(fs') && Mapped(fs', j, i) && Same(fs, fs', j, i)
  {
    hide Owned, Bmapped;
    OwnedShape(fs);
    BmapFacts(fs, ino, bn);
    OwnedShape(Bmapped(fs, ino, bn));
    RefUsed(fs, SlotAt(j, i));
    if Ref(fs, Slot(ino, INDIRECT)) == Ref(fs, SlotAt(j, i)) {
      RefsDiffer(fs, Slot(ino, INDIRECT), SlotAt(j, i));
    }
  }

  lemma BmapPartial(fs0: Fs, fs: Fs, ino: nat, off: nat, data: seq<Byte>, bn: nat)
    requires Partial(fs0, fs, ino, off, data) && bn < MAXFILE
    ensures Partial(fs0, Bmapped(fs, ino, bn), ino, off, data)
  {
    hide Owned, Bmapped, Ref, ByteAt;
    OwnedShape(fs0);
    OwnedShape(fs);
    var fs' := Bmapped(fs, ino, bn);
    BmapFacts(fs, ino, bn);
    OwnedShape(fs');
    forall i | off <= i < off + |data|
      ensures Wrote(fs', ino, off, data, i)
    {
      assert Wrote(fs, ino, off, data, i);
      BmapByte(fs, ino, bn, ino, i);
    }
    forall j: nat, i: nat | Mapped(fs0, j, i) && !(j == ino && off <= i < off + |data|)
      ensures Same(fs0, fs', j, i)
    {
      assert Same(fs0, fs, j, i);
      assert Ref(fs, SlotAt(j, i)) == Ref(fs0, SlotAt(j, i));
      BmapByte(fs, ino, bn, j, i);
    }
  }

  /** The chunk of data that goes into the block of byte at. */
  ghost function Stored(fs: Fs, ino: nat, at: nat, chunk: seq<Byte>): Fs
    requires Owned(fs) && Mapped(fs, ino, at) && at % BSIZE + |chunk| <= BSIZE
  {
    RefUsed(fs, SlotAt(ino, at));
    var b := Ref(fs, SlotAt(ino, at));
    Overwritten(fs, b, PutBytes(fs.blocks[b], at % BSIZE, chunk))
  }

  lemma SlotAtSame(j: nat, i: nat, ino: nat, at: nat)
    ensures SlotAt(j, i) == SlotAt(ino, at) <==> j == ino && i / BSIZE == at / BSIZE
    ensures SlotAt(j, i).k != INDIRECT
  {
  }

  lemma SameBlock(i: nat, at: nat, m: nat)
    requires at % BSIZE + m <= BSIZE
    ensures i / BSIZE == at / BSIZE ==> (at <= i < at + m <==> at % BSIZE <= i % BSIZE < at % BSIZE + m) && i - at == i % BSIZE - at % BSIZE
    ensures at <= i < at + m ==> i / BSIZE == at / BSIZE
  {
    assert i == BSIZE * (i / BSIZE) + i % BSIZE && at == BSIZE * (at / BSIZE) + at % BSIZE;
  }

  /** Storing a chunk changes exactly its bytes. */
  lemma StoredByte(fs: Fs, ino: nat, at: nat, chunk: seq<Byte>, j: nat, i: nat)
    requires Owned(fs) && Mapped(fs, ino, at) && at % BSIZE + |chunk| <= BSIZE && Mapped(fs, j, i)
    ensures var fs' := Stored(fs, ino, at, chunk);
            && Shape(fs') && Mapped(fs', j, i)
            && ByteAt(fs', j, i) == if j == ino && at <= i < at + |chunk| then chunk[i - at] else ByteAt(fs, j, i)
  {
    hide Owned, Ref, SlotOf;
    OwnedShape(fs);
    var b := Ref(fs, SlotAt(ino, at));
    RefUsed(fs, SlotAt(ino, at));
    RefUsed(fs, SlotAt(j, i));
    SlotAtSame(j, i, ino, at);
    SlotAtSame(ino, at, ino, at);
    SameBlock(i, at, |chunk|);
    OverwrittenRef(fs, b, PutBytes(fs.blocks[b], at % BSIZE, chunk), SlotAt(j, i));
  }

  lemma StoredPartial(fs0: Fs, fs: Fs, ino: nat, off: nat, data: seq<Byte>, chunk: seq<Byte>)
    requires Partial(fs0, fs, ino, off, data)
    requires var at := off + |data|; Mapped(fs, ino, at) && at % BSIZE + |chunk| <= BSIZE
    ensures Partial(fs0, Stored(fs, ino, off + |data|, chunk), ino, off, data + chunk)
  {
    hide Owned, Ref, ByteAt, SlotOf;
    var at := off + |data|;
    OwnedShape(fs0);
    OwnedShape(fs);
    var fs' := Stored(fs, ino, at, chunk);
    StoredKeeps(fs, ino, at, chunk);
    OwnedShape(fs');
    forall i | off <= i < off + |data + chunk|
      ensures Wrote(fs', ino, off, data + chunk, i)
    {
      if i < at {
        assert Wrote(fs, ino, off, data, i);
      } else {
        SameBlock(i, at, |chunk|);
        assert Mapped(fs, ino, i);
      }
      StoredByte(fs, ino, at, chunk, ino, i);
    }
    forall j: nat, i: nat | Mapped(fs0, j, i) && !(j == ino && off <= i < off + |data + chunk|)
      ensures Same(fs0, fs', j, i)
    {
      assert Same(fs0, fs, j, i);
      assert Ref(fs, SlotAt(j, i)) == Ref(fs0, SlotAt(j, i));
      StoredByte(fs, ino, at, chunk, j, i);
    }
  }

  lemma StoredKeeps(fs: Fs, ino: nat, at: nat, chunk: seq<Byte>)
    requires Owned(fs) && Mapped(fs, ino, at) && at % BSIZE + |chunk| <= BSIZE
    ensures var fs' := Stored(fs, ino, at, chunk);
            && Owned(fs') && fs' == fs.(blocks := fs'.blocks) && (forall t :: Ref(fs', t) == Ref(fs, t))
  {
    hide Owned, Ref, SlotOf;
    OwnedShape(fs);
    var b := Ref(fs, SlotAt(ino, at));
    RefUsed(fs, SlotAt(ino, at));
    SlotAtSame(ino, at, ino, at);
    var data := PutBytes(fs.blocks[b], at % BSIZE, chunk);
    OverwrittenKeeps(fs, b, data);
    forall t
      ensures Ref(Stored(fs, ino, at, chunk), t) == Ref(fs, t)
    {
      OverwrittenRef(fs, b, data, t);
    }
  }

  /** writei's last assignment to the size. */
  function Sized(fs: Fs, ino: nat, end: nat): Fs
    requires ino in fs.inodes
  {
    var ip := fs.inodes[ino];
    fs.(inodes := fs.inodes[ino := ip.(size := if end > ip.size then end else ip.size)])
  }

  lemma SizedRef(fs: Fs, ino: nat, end: nat, t: Slot)
    requires Shape(fs) && ino in fs.inodes
    ensures Shape(Sized(fs, ino, end)) && Ref(Sized(fs, ino, end), t) == Ref(fs, t)
  {
  }

  lemma SizedOwned(fs: Fs, ino: nat, end: nat)
    requires Owned(fs) && ino in fs.inodes
    ensures Owned(Sized(fs, ino, end))
  {
    hide Ref;
    var fs' := Sized(fs, ino, end);
    SizedRef(fs, ino, end, Slot(0, 0));
    forall b | 0 <= b < |fs'.used|
      ensures UsedOk(fs', b)
    {
      assert UsedOk(fs, b);
    }
    forall b | b in fs'.owner
      ensures OwnerOk(fs', b)
    {
      assert OwnerOk(fs, b);
      SizedRef(fs, ino, end, fs'.owner[b]);
    }
    forall t
      ensures SlotOk(fs', t)
    {
      assert SlotOk(fs, t);
      SizedRef(fs, ino, end, t);
    }
  }

  lemma SizedByte(fs: Fs, ino: nat, end: nat, j: nat, i: nat)
    requires Shape(fs) && ino in fs.inodes
    ensures var fs' := Sized(fs, ino, end); Shape(fs') && Same(fs, fs', j, i) && Mapped(fs', j, i) == Mapped(fs, j, i)
  {
    hide Ref;
    SizedRef(fs, ino, end, SlotAt(j, i));
  }

  function Max(a: nat, b: nat): nat {
    if a < b then b else a
  }

  /** data written over s from off on, of which what lies past the end is cut off. */
  function Overlaid(s: seq<Byte>, off: nat, data: seq<Byte>, end: nat): seq<Byte>
    requires off <= |s| && end <= off + |data|
  {
    Spliced(s, off, data)[..Max(|s|, end)]
  }

  /**
   The finished write, of which r bytes are reported: the file has the data, the others are as they were, and no hole has
   come about.
   */
  lemma WriteDone(fs0: Fs, fs: Fs, ino: nat, off: nat, data: seq<Byte>, r: nat)
    requires Wf(fs0) && Partial(fs0, fs, ino, off, data) && off <= fs0.inodes[ino].size
    requires r <= |data| && off + r <= MAXFILE * BSIZE
    ensures var fs' := Sized(fs, ino, off + r);
            && Wf(fs') && fs'.inodes.Keys == fs0.inodes.Keys
            && Contents(fs', ino) == Overlaid(Contents(fs0, ino), off, data, off + r)
            && forall j :: j in fs0.inodes && j != ino ==> Contents(fs', j) == Contents(fs0, j)
  {
    hide Owned, Ref, ByteAt, SlotOf;
    var fs' := Sized(fs, ino, off + r);
    OwnedShape(fs0);
    OwnedShape(fs);
    SizedOwned(fs, ino, off + r);
    OwnedShape(fs');
    forall j | j in fs0.inodes
      ensures FileOk(fs', j)
    {
      WriteFileOk(fs0, fs, ino, off, data, r, j);
    }
    forall j | j in fs0.inodes && j != ino
      ensures Contents(fs', j) == Contents(fs0, j)
    {
      WriteOther(fs0, fs, ino, off, data, r, j);
    }
    WriteOwn(fs0, fs, ino, off, data, r);
  }

  lemma WriteFileOk(fs0: Fs, fs: Fs, ino: nat, off: nat, data: seq<Byte>, r: nat, j: nat)
    requires Wf(fs0) && Partial(fs0, fs, ino, off, data) && off <= fs0.inodes[ino].size
    requires r <= |data| && off + r <= MAXFILE * BSIZE && j in fs0.inodes
    ensures var fs' := Sized(fs, ino, off + r); Shape(fs') && j in fs'.inodes && FileOk(fs', j)
  {
    hide Owned, Ref, ByteAt, SlotOf;
    OwnedShape(fs0);
    OwnedShape(fs);
    var fs' := Sized(fs, ino, off + r);
    SizedByte(fs, ino, off + r, 0, 0);
    assert FileOk(fs0, j);
    forall i | 0 <= i < fs'.inodes[j].size
      ensures Mapped(fs', j, i)
    {
      SizedByte(fs, ino, off + r, j, i);
      if i < fs0.inodes[j].size {
        assert Mapped(fs0, j, i);
        assert Ref(fs, SlotAt(j, i)) == Ref(fs0, SlotAt(j, i));
      } else {
        assert Wrote(fs, ino, off, data, i);
      }
    }
  }

  lemma WriteOther(fs0: Fs, fs: Fs, ino: nat, off: nat, data: seq<Byte>, r: nat, j: nat)
    requires Wf(fs0) && Partial(fs0, fs, ino, off, data) && j in fs0.inodes && j != ino
    ensures var fs' := Sized(fs, ino, off + r); Shape(fs') && j in fs'.inodes && Contents(fs', j) == Contents(fs0, j)
  {
    hide Owned, Ref, ByteAt, SlotOf;
    OwnedShape(fs0);
    OwnedShape(fs);
    SizedByte(fs, ino, off + r, 0, 0);
    assert FileOk(fs0, j);
    forall i | 0 <= i < fs0.inodes[j].size
      ensures ByteAt(Sized(fs, ino, off + r), j, i) == ByteAt(fs0, j, i)
    {
      assert Mapped(fs0, j, i);
      assert Same(fs0, fs, j, i);
      SizedByte(fs, ino, off + r, j, i);
    }
  }

  lemma WriteOwn(fs0: Fs, fs: Fs, ino: nat, off: nat, data: seq<Byte>, r: nat)
    requires Wf(fs0) && Partial(fs0, fs, ino, off, data) && off <= fs0.inodes[ino].size && r <= |data|
    ensures var fs' := Sized(fs, ino, off + r);
            Shape(fs') && ino in fs'.inodes && Contents(fs', ino) == Overlaid(Contents(fs0, ino), off, data, off + r)
  {
    hide Owned, Ref, ByteAt, SlotOf;
    OwnedShape(fs0);
    OwnedShape(fs);
    var fs' := Sized(fs, ino, off + r);
    SizedByte(fs, ino, off + r, 0, 0);
    assert FileOk(fs0, ino);
    var want := Overlaid(Contents(fs0, ino), off, data, off + r);
    forall i | 0 <= i < |want|
      ensures ByteAt(fs', ino, i) == want[i]
    {
      SizedByte(fs, ino, off + r, ino, i);
      if off <= i < off + |data| {
        assert Wrote(fs, ino, off, data, i);
      } else {
        assert Mapped(fs0, ino, i);
        assert Same(fs0, fs, ino, i);
      }
    }
  }

  // Truncating.

  /** itrunc empties the file and leaves the others. */
  lemma TruncatedContents(fs: Fs, ino: nat)
    requires Wf(fs) && ino in fs.inodes
    ensures var fs' := Truncated(fs, ino);
            && Wf(fs') && fs'.inodes.Keys == fs.inodes.Keys && Contents(fs', ino) == []
            && forall j :: j in fs.inodes && j != ino ==> Contents(fs', j) == Contents(fs, j)
  {
    hide Owned, Ref;
    var fs' := Truncated(fs, ino);
    OwnedShape(fs);
    TruncatedKeeps(fs, ino);
    OwnedShape(fs');
    forall j | j in fs.inodes && j != ino
      ensures FileOk(fs', j) && Contents(fs', j) == Contents(fs, j)
    {
      assert FileOk(fs, j);
      forall i | 0 <= i < fs.inodes[j].size
        ensures Mapped(fs', j, i) && ByteAt(fs', j, i) == ByteAt(fs, j, i)
      {
        assert Mapped(fs, j, i);
        TruncatedRef(fs, ino, SlotAt(j, i));
      }
    }
  }

  // readi.

  lemma Wraps(off: nat, n: nat)
    requires off < UINT && n < UINT
    ensures (off + n) % UINT < off <==> off + n >= UINT
  {
  }

  /** What a read of n bytes at off can give. */
  function Readable(s: seq<Byte>, off: nat, n: nat): seq<Byte> {
    if off > |s| || off + n >= UINT then [] else if off + n > |s| then s[off..] else s[off..off + n]
  }

  /** One round of readi's loop: what the block of byte at holds of the next left bytes; nothing if there is no block. */
  method ReadChunk(d: Disk, ino: nat, at: nat, left: nat) returns (bytes: seq<Byte>)
    requires Wf(d.State()) && d.BitsOk() && ino in d.inodes && left > 0 && at + left <= d.inodes[ino].size
    modifies d
    ensures d.State() == old(d.State()) && d.others == old(d.others) && d.bits == old(d.bits) && d.allocs == old(d.allocs)
    ensures 0 < |bytes| <= left && at + |bytes| <= |Contents(d.State(), ino)|
    ensures bytes == Contents(d.State(), ino)[at..at + |bytes|]
  {
    hide Wf, Owned, Contents, Ref, Bmapped;
    WfShape(d.State(), ino);
    ChunkMapped(d.State(), ino, at);
    var addr := d.Bmap(ino, at / BSIZE);
    if addr == 0 {
      return [];
    }
    var m := if left < BSIZE - at % BSIZE then left else BSIZE - at % BSIZE;
    ChunkBytes(d.State(), ino, at, m);
    bytes := d.blocks[addr].bytes[at % BSIZE..at % BSIZE + m];
  }

  lemma SliceMore(c: seq<Byte>, off: nat, want: nat, have: nat, m: nat, fit: nat)
    requires off + want <= |c| && have + m <= want && fit <= m
    ensures var s := c[off..off + want];
            && c[off + have..off + have + m][..fit] == s[have..have + fit]
            && s[..have] + s[have..have + fit] == s[..have + fit]
            && c[off + have..off + have + m] == s[have..have + m]
  {
    var s := c[off..off + want];
    assert forall i :: have <= i < have + m ==> s[i] == c[off + i];
    assert c[off + have..off + have + m] == s[have..have + m];
    assert s[have..have + m][..fit] == s[have..have + fit];
    assert s[..have] + s[have..have + fit] == s[..have + fit];
  }

  /**
   Of the destination, the first room bytes can be written. The bytes of the file from off on are delivered, as many as were
   asked for and there are; or -1, and as many as there is room for. Nothing is allocated or logged.
   */
  /** readi's loop, over bytes that the file has. */
  method ReadLoop(d: Disk, ino: nat, off: nat, want: nat, room: nat) returns (r: int, data: seq<Byte>)
    requires Wf(d.State()) && d.BitsOk() && ino in d.inodes && off + want <= d.inodes[ino].size
    modifies d
    ensures d.State() == old(d.State()) && d.others == old(d.others) && d.bits == old(d.bits) && d.allocs == old(d.allocs)
    ensures off + want <= |Contents(d.State(), ino)|
    ensures var s := Contents(d.State(), ino)[off..off + want];
            if want <= room then r == want && data == s else r == -1 && data == s[..room]
  {
    hide Wf, Contents, Ref, Owned;
    ghost var fs := d.State();
    WfShape(fs, ino);
    ghost var c := Contents(fs, ino);
    ghost var s := c[off..off + want];
    data := [];
    while |data| < want
      invariant |data| <= want && |data| <= room && d.State() == fs && data == s[..|data|]
      invariant d.others == old(d.others) && d.bits == old(d.bits) && d.allocs == old(d.allocs)
    {
      var bytes := ReadChunk(d, ino, off + |data|, want - |data|);
      if bytes == [] {
        break;
      }
      SliceMore(c, off, want, |data|, |bytes|, if room - |data| < |bytes| then room - |data| else |bytes|);
      if |data| + |bytes| > room {
        data := data + bytes[..room - |data|];
        return -1, data;
      }
      data := data + bytes;
    }
    r := |data|;
  }

  method Readi(d: Disk, ino: nat, off: nat, n: nat, room: nat) returns (r: int, data: seq<Byte>)
    requires Wf(d.State()) && d.BitsOk() && ino in d.inodes && off < UINT && n < UINT
    modifies d
    ensures d.State() == old(d.State()) && d.others == old(d.others) && d.bits == old(d.bits) && d.allocs == old(d.allocs)
    ensures var s := Readable(Contents(d.State(), ino), off, n);
            if |s| <= room then r == |s| && data == s else r == -1 && data == s[..room]
  {
    hide Wf, Contents, Ref, Owned;
    WfShape(d.State(), ino);
    ghost var c := Contents(d.State(), ino);
    var size := d.inodes[ino].size;
    Wraps(off, n);
    if off > size || (off + n) % UINT < off {
      return 0, [];
    }
    var want := if off + n > size then size - off else n;
    assert off + n > size ==> c[off..] == c[off..off + want];
    r, data := ReadLoop(d, ino, off, want, room);
  }

  lemma WfShape(fs: Fs, ino: nat)
    requires Wf(fs)
    ensures Owned(fs) && Shape(fs)
    ensures ino in fs.inodes ==> |Contents(fs, ino)| == fs.inodes[ino].size <= MAXFILE * BSIZE
  {
    assert ino in fs.inodes ==> FileOk(fs, ino);
  }

  /** bmap finds the block of a byte of the file, and changes nothing. */
  lemma ChunkMapped(fs: Fs, ino: nat, at: nat)
    requires Wf(fs) && ino in fs.inodes && at < fs.inodes[ino].size
    ensures at / BSIZE < MAXFILE && Bmapped(fs, ino, at / BSIZE) == fs
    ensures var b := Ref(fs, SlotOf(ino, at / BSIZE)); 0 < b < |fs.blocks| && |fs.blocks[b].bytes| == BSIZE
  {
    assert FileOk(fs, ino);
    assert Mapped(fs, ino, at);
    RefUsed(fs, SlotAt(ino, at));
  }

  /** The bytes of a file within one block are those of the block. */
  lemma ChunkBytes(fs: Fs, ino: nat, at: nat, m: nat)
    requires Wf(fs) && ino in fs.inodes && at + m <= fs.inodes[ino].size && at % BSIZE + m <= BSIZE
    requires var b := Ref(fs, SlotOf(ino, at / BSIZE)); 0 < b < |fs.blocks|
    ensures |Contents(fs, ino)| == fs.inodes[ino].size
    ensures fs.blocks[Ref(fs, SlotOf(ino, at / BSIZE))].bytes[at % BSIZE..at % BSIZE + m] == Contents(fs, ino)[at..at + m]
  {
    hide Owned, Ref, SlotOf;
    OwnedShape(fs);
    var bytes := fs.blocks[Ref(fs, SlotOf(ino, at / BSIZE))].bytes[at % BSIZE..at % BSIZE + m];
    forall i | 0 <= i < m
      ensures Contents(fs, ino)[at..at + m][i] == bytes[i]
    {
      SameBlock(at + i, at, m);
    }
  }

  // writei.

  /** The blocks that n bytes from off on lie in, counting a partial one at off. */
  function Span(off: nat, n: nat): nat {
    (off % BSIZE + n + BSIZE - 1) / BSIZE
  }

  /** What has been logged: of the blocks visited, those in v; and the allocations, gained of them for the file's blocks. */
  ghost predicate Tally(d: Disk, fs0: Fs, ino: nat, others: set<nat>, allocs: nat, v: set<nat>, gained: nat)
    requires Shape(fs0) && Shape(d.State())
    reads d
  {
    var p, p' := Ref(fs0, Slot(ino, INDIRECT)), Ref(d.State(), Slot(ino, INDIRECT));
    && d.others <= others + v + ({p'} - {0})
    && d.allocs <= allocs + gained + (if p == 0 != p' then 1 else 0)
    && (p != 0 ==> p' == p)
  }

  /**
   The k rounds so far were in different blocks; gained of them have become blocks of the file, but not the first if it does
   not begin one.
   */
  predicate Visited(off: nat, n: nat, k: nat, gained: nat) {
    && k * BSIZE < off % BSIZE + n + BSIZE
    && gained <= k
    && (k > 0 && off % BSIZE != 0 ==> gained < k)
  }

  /** The next round, with tot bytes written after k rounds, begins a block unless it is the first. */
  predicate Aligned(off: nat, n: nat, tot: nat, k: nat) {
    tot < n ==> (k == 0 && tot == 0) || off % BSIZE + tot == k * BSIZE
  }

  lemma NextRound(off: nat, n: nat, tot: nat, k: nat, gained: nat, more: nat)
    requires Visited(off, n, k, gained) && Aligned(off, n, tot, k) && tot < n
    requires more <= 1 && (k == 0 && off % BSIZE != 0 ==> more == 0)
    ensures Visited(off, n, k + 1, gained + more) && Aligned(off, n, tot + ChunkSize(off + tot, n - tot), k + 1)
    ensures 0 < ChunkSize(off + tot, n - tot) <= n - tot && (off + tot) % BSIZE + ChunkSize(off + tot, n - tot) <= BSIZE
    ensures k == 0 || (off + tot) % BSIZE == 0
  {
    if k > 0 {
      BlockStart(off, tot, k);
    }
  }

  lemma BlockStart(off: nat, tot: nat, k: nat)
    requires off % BSIZE + tot == k * BSIZE
    ensures (off + tot) % BSIZE == 0
  {
    assert off + tot == BSIZE * (off / BSIZE + k);
  }

  function ChunkSize(at: nat, left: nat): nat {
    if left < BSIZE - at % BSIZE then left else BSIZE - at % BSIZE
  }

  /** A position within a block, no further than the end of the file, has that block. */
  lemma FirstMapped(fs: Fs, ino: nat, off: nat)
    requires Wf(fs) && ino in fs.inodes && off <= fs.inodes[ino].size && off % BSIZE != 0
    ensures Mapped(fs, ino, off)
  {
    assert FileOk(fs, ino);
    assert Mapped(fs, ino, off - 1);
    assert off == BSIZE * (off / BSIZE) + off % BSIZE;
    assert (off - 1) / BSIZE == off / BSIZE;
  }

  /**
   One round of writei's loop: of the source, src is what can be read from here on. m bytes are copied and logged; or the
   disk is full; or the copy fails halfway, which leaves part of the chunk in the block, and that unlogged.
   */
  method WriteChunk(d: Disk, ino: nat, at: nat, left: nat, src: seq<Byte>,
                    ghost fs0: Fs, ghost off: nat, ghost data: seq<Byte>,
                    ghost others: set<nat>, ghost allocs: nat, ghost v: set<nat>, ghost gained: nat)
    returns (m: nat, ghost part: seq<Byte>, ghost addr: nat)
    requires Partial(fs0, d.State(), ino, off, data) && d.BitsOk() && ino in d.inodes
    requires at == off + |data| && left > 0 && at + left <= MAXFILE * BSIZE
    requires Tally(d, fs0, ino, others, allocs, v, gained)
    modifies d
    ensures Partial(fs0, d.State(), ino, off, data + part) && d.BitsOk() && ino in d.inodes && Shape(d.State())
    ensures d.Left() + d.allocs == old(d.Left() + d.allocs)
    ensures Tally(d, fs0, ino, others, allocs, v + {addr}, gained + (if Mapped(old(d.State()), ino, at) then 0 else 1))
    ensures m > 0 ==> m == ChunkSize(at, left) <= |src| && part == src[..m]
    ensures m == 0 ==> (part == [] && Full(d.used)) || (part == src && |src| < ChunkSize(at, left))
  {
    hide Owned, Shape, Partial, Ref, Tally, Full;
    PartialShape(fs0, d.State(), ino, off, data);
    var a := MapChunk(d, ino, at, fs0, off, data, others, allocs, v, gained);
    addr := a;
    if a == 0 {
      assert data + [] == data;
      return 0, [], 0;
    }
    var size := ChunkSize(at, left);
    part := if |src| < size then src else src[..size];
    var bytes := if |src| < size then src else src[..size];
    PutChunk(d, ino, at, a, bytes, |src| >= size, fs0, off, data, others, allocs, v + {a},
             gained + (if Mapped(old(d.State()), ino, at) then 0 else 1));
    m := if |src| < size then 0 else size;
  }

  lemma PartialShape(fs0: Fs, fs: Fs, ino: nat, off: nat, data: seq<Byte>)
    requires Partial(fs0, fs, ino, off, data)
    ensures Owned(fs0) && Owned(fs) && Shape(fs0) && Shape(fs) && SameFiles(fs0, fs, ino)
  {
  }

  /** bmap for the block of byte at. */
  method MapChunk(d: Disk, ino: nat, at: nat, ghost fs0: Fs, ghost off: nat, ghost data: seq<Byte>,
                  ghost others: set<nat>, ghost allocs: nat, ghost v: set<nat>, ghost gained: nat)
    returns (addr: nat)
    requires Partial(fs0, d.State(), ino, off, data) && d.BitsOk() && ino in d.inodes && at / BSIZE < MAXFILE
    requires Shape(fs0) && Shape(d.State()) && Tally(d, fs0, ino, others, allocs, v, gained)
    modifies d
    ensures Partial(fs0, d.State(), ino, off, data) && d.BitsOk() && ino in d.inodes && Shape(d.State())
    ensures d.Left() + d.allocs == old(d.Left() + d.allocs)
    ensures Tally(d, fs0, ino, others, allocs, v + {addr}, gained + (if Mapped(old(d.State()), ino, at) then 0 else 1))
    ensures addr == Ref(d.State(), SlotAt(ino, at)) && (addr == 0 ==> Full(d.used))
  {
    hide Owned, Bmapped, Partial, Ref, Shape;
    ghost var fs := d.State();
    PartialShape(fs0, fs, ino, off, data);
    BmapFacts(fs, ino, at / BSIZE);
    BmapPartial(fs0, fs, ino, off, data, at / BSIZE);
    addr := d.Bmap(ino, at / BSIZE);
    PartialShape(fs0, d.State(), ino, off, data);
  }

  /** The copy into the cached block at addr; if it was whole, the block is logged. */
  method PutChunk(d: Disk, ino: nat, at: nat, addr: nat, bytes: seq<Byte>, whole: bool,
                  ghost fs0: Fs, ghost off: nat, ghost data: seq<Byte>,
                  ghost others: set<nat>, ghost allocs: nat, ghost v: set<nat>, ghost gained: nat)
    requires Partial(fs0, d.State(), ino, off, data) && d.BitsOk() && ino in d.inodes && at == off + |data|
    requires Shape(fs0) && Shape(d.State()) && Tally(d, fs0, ino, others, allocs, v, gained)
    requires addr == Ref(d.State(), SlotAt(ino, at)) != 0 && at % BSIZE + |bytes| <= BSIZE && addr in v
    modifies d`blocks, d`others
    ensures Partial(fs0, d.State(), ino, off, data + bytes) && d.BitsOk() && Shape(d.State())
    ensures Tally(d, fs0, ino, others, allocs, v, gained)
  {
    hide Owned, Partial, Ref;
    ghost var fs := d.State();
    PartialShape(fs0, fs, ino, off, data);
    StoredPartial(fs0, fs, ino, off, data, bytes);
    StoredKeeps(fs, ino, at, bytes);
    OwnedShape(Stored(fs, ino, at, bytes));
    RefUsed(fs, SlotAt(ino, at));
    d.blocks := d.blocks[addr := PutBytes(d.blocks[addr], at % BSIZE, bytes)];
    assert d.State() == Stored(fs, ino, at, bytes);
    if whole {
      d.others := d.others + {addr};
    }
  }

  /** writei refuses the write. */
  predicate Refused(size: nat, off: nat, n: nat) {
    off > size || off + n >= UINT || off + n > MAXFILE * BSIZE
  }

  predicate Full(used: seq<bool>) {
    forall b :: 0 <= b < |used| ==> used[b]
  }

  /** Of avail bytes put into the file from off on, those that writei reports: up to the last block it could fill. */
  function Reported(off: nat, avail: nat): (r: nat)
    ensures r <= avail
  {
    if avail < BSIZE - off % BSIZE then 0 else avail - (off + avail) % BSIZE
  }

  /** Of n bytes asked for, with avail of them readable, r are reported and w were put into the file. */
  predicate Outcome(used: seq<bool>, off: nat, n: nat, avail: nat, r: nat, w: nat) {
    && r <= w <= n && w <= avail
    && (r == n || (w == r && Full(used)) || (w == avail < n && r == Reported(off, avail)))
  }

  /** The other files are as they were. */
  ghost predicate OthersSame(fs0: Fs, fs: Fs, ino: nat) {
    && Shape(fs0) && Shape(fs) && fs.inodes.Keys == fs0.inodes.Keys && |fs.used| == |fs0.used|
    && forall j :: j in fs0.inodes && j != ino ==> Contents(fs, j) == Contents(fs0, j)
  }

  /** writei's loop. */
  method WriteLoop(d: Disk, ino: nat, off: nat, n: nat, src: seq<Byte>)
    returns (tot: nat, ghost w: nat, ghost v: set<nat>, ghost gained: nat)
    requires Wf(d.State()) && d.BitsOk() && ino in d.inodes && !Refused(d.inodes[ino].size, off, n)
    modifies d
    ensures d.BitsOk() && ino in d.inodes && Outcome(d.used, off, n, |src|, tot, w)
    ensures d.Left() + d.allocs == old(d.Left() + d.allocs)
    ensures Partial(old(d.State()), d.State(), ino, off, src[..w])
    ensures Shape(old(d.State())) && Shape(d.State()) && Tally(d, old(d.State()), ino, old(d.others), old(d.allocs), v, gained)
    ensures |v| <= Span(off, n) && gained + 1 <= Span(off, n) + (if off % BSIZE == 0 then 1 else 0)
  {
    hide Wf, Owned, Shape, Mapped, Contents, Partial, Tally, Full, Visited, Aligned, ChunkSize, Outcome, Span;
    ghost var fs0 := d.State();
    WfShape(fs0, ino);
    PartialStart(fs0, ino, off);
    TallyStart(d, ino);
    RoundsStart(off, n);
    assert src[..0] == [];
    tot, w, v, gained := 0, 0, {}, 0;
    ghost var k, left := 0, d.Left() + d.allocs;
    while tot < n
      invariant 0 <= tot == w <= n && tot <= |src|
      invariant Partial(fs0, d.State(), ino, off, src[..tot]) && d.BitsOk() && Shape(d.State())
      invariant ino in d.inodes && (k == 0 ==> tot == 0 && d.State() == fs0)
      invariant Visited(off, n, k, gained) && Aligned(off, n, tot, k) && |v| <= k
      invariant d.Left() + d.allocs == left
      invariant Tally(d, fs0, ino, old(d.others), old(d.allocs), v, gained)
    {
      if k == 0 && off % BSIZE != 0 {
        FirstMapped(fs0, ino, off);
      }
      ghost var more := if Mapped(d.State(), ino, off + tot) then 0 else 1;
      NextRound(off, n, tot, k, gained, more);
      var m;
      ghost var part, addr;
      m, part, addr := WriteChunk(d, ino, off + tot, n - tot, src[tot..],
                                  fs0, off, src[..tot], old(d.others), old(d.allocs), v, gained);
      w := tot + |part|;
      assert src[..tot] + part == src[..w];
      assert |v + {addr}| <= |v| + 1;
      v, k, gained := v + {addr}, k + 1, gained + more;
      if m == 0 {
        OutcomeShort(d.used, off, n, |src|, tot, w);
        break;
      }
      tot := tot + m;
    }
    if tot == n {
      OutcomeAll(d.used, off, n, |src|);
    }
    SpanVisited(off, n, k, gained);
  }

  lemma OutcomeAll(used: seq<bool>, off: nat, n: nat, avail: nat)
    ensures n <= avail ==> Outcome(used, off, n, avail, n, n)
  {
  }

  lemma OutcomeShort(used: seq<bool>, off: nat, n: nat, avail: nat, r: nat, w: nat)
    requires r <= w <= n && w <= avail
    requires (w == r && Full(used)) || (w == avail < n && w - r < ChunkSize(off + r, n - r) && (r == 0 || (off + r) % BSIZE == 0))
    ensures Outcome(used, off, n, avail, r, w)
  {
    if w == avail < n && w - r < ChunkSize(off + r, n - r) && r > 0 && (off + r) % BSIZE == 0 {
      assert off + w == BSIZE * ((off + r) / BSIZE) + (w - r);
      assert (off + w) % BSIZE == w - r;
      assert r >= BSIZE - off % BSIZE;
    }
  }

  lemma RoundsStart(off: nat, n: nat)
    ensures Visited(off, n, 0, 0) && Aligned(off, n, 0, 0)
  {
  }

  lemma TallyStart(d: Disk, ino: nat)
    requires Shape(d.State())
    ensures Tally(d, d.State(), ino, d.others, d.allocs, {}, 0)
  {
  }

  lemma SpanVisited(off: nat, n: nat, k: nat, gained: nat)
    requires Visited(off, n, k, gained)
    ensures k <= Span(off, n) && gained + 1 <= Span(off, n) + (if off % BSIZE == 0 then 1 else 0)
  {
    assert off % BSIZE + n + BSIZE - 1 == BSIZE * Span(off, n) + (off % BSIZE + n + BSIZE - 1) % BSIZE;
  }

  /** The end of writei: the size, and iupdate, which logs the block of the inode. */
  method WriteFinish(d: Disk, inodeStart: nat, ino: nat, off: nat, tot: nat, ghost fs0: Fs, ghost data: seq<Byte>,
                     ghost others: set<nat>, ghost allocs: nat, ghost v: set<nat>, ghost gained: nat)
    requires Wf(fs0) && Partial(fs0, d.State(), ino, off, data) && d.BitsOk() && ino in d.inodes
    requires off <= fs0.inodes[ino].size && tot <= |data| && off + tot <= MAXFILE * BSIZE
    requires Shape(fs0) && Shape(d.State()) && Tally(d, fs0, ino, others, allocs, v, gained)
    modifies d`inodes, d`others
    ensures Wf(d.State()) && d.BitsOk() && ino in d.inodes
    ensures Contents(d.State(), ino) == Overlaid(Contents(fs0, ino), off, data, off + tot)
    ensures OthersSame(fs0, d.State(), ino)
    ensures |d.others - others| <= |v| + 2 && d.allocs <= allocs + gained + 1
  {
    hide Owned, Partial, Wf, Contents, Ref;
    WriteDone(fs0, d.State(), ino, off, data, tot);
    PartialShape(fs0, d.State(), ino, off, data);
    WfShape(Sized(d.State(), ino, off + tot), ino);
    ghost var p := Ref(d.State(), Slot(ino, INDIRECT));
    var ip := d.inodes[ino];
    if off + tot > ip.size {
      d.inodes := d.inodes[ino := ip.(size := off + tot)];
    }
    assert d.State() == old(Sized(d.State(), ino, off + tot));
    d.others := d.others + {ino / IPB + inodeStart};
    FewMore(d.others, others, v, p, ino / IPB + inodeStart);
  }

  lemma FewMore(s: set<nat>, others: set<nat>, v: set<nat>, p: nat, i: nat)
    requires s <= others + v + ({p} - {0}) + {i}
    ensures |s - others| <= |v| + 2
  {
    var t := v + ({p, i});
    assert s - others <= t;
    SubsetSize(s - others, t);
    assert t == v + {p} + {i};
  }

  /**
   Of the source, src can be read. The write is refused; or r bytes are written, fewer than n only if the disk is full or
   the source could not be read. In the last case the file may hold up to a block less one of bytes more than reported.
   */
  method Writei(d: Disk, inodeStart: nat, ino: nat, off: nat, n: nat, src: seq<Byte>) returns (r: int, ghost w: nat)
    requires Wf(d.State()) && d.BitsOk() && ino in d.inodes && off < UINT && n < UINT
    modifies d
    ensures Wf(d.State()) && d.BitsOk() && ino in d.inodes
    ensures Refused(old(d.inodes)[ino].size, off, n) ==> r == -1 && d.State() == old(d.State()) && d.bits == old(d.bits)
    ensures !Refused(old(d.inodes)[ino].size, off, n) ==>
              && r >= 0 && Outcome(d.used, off, n, |src|, r, w)
              && Contents(d.State(), ino) == Overlaid(old(Contents(d.State(), ino)), off, src[..w], off + r)
    ensures OthersSame(old(d.State()), d.State(), ino)
    ensures |d.others - old(d.others)| <= Span(off, n) + 2
    ensures d.Left() + d.allocs == old(d.Left() + d.allocs)
    ensures d.allocs <= old(d.allocs) + Span(off, n) + (if off % BSIZE == 0 then 1 else 0)
  {
    hide Wf, Owned, Contents, Ref, Partial, Tally, Span;
    WfShape(d.State(), ino);
    Wraps(off, n);
    var size := d.inodes[ino].size;
    if off > size || (off + n) % UINT < off || off + n > MAXFILE * BSIZE {
      assert d.others - d.others == {};
      return -1, 0;
    }
    var tot;
    ghost var v, gained;
    tot, w, v, gained := WriteLoop(d, ino, off, n, src);
    WriteFinish(d, inodeStart, ino, off, tot, old(d.State()), src[..w], old(d.others), old(d.allocs), v, gained);
    r := tot;
  }

  /** What was written is what is read, whatever was there before. */
  lemma ReadBack(s: seq<Byte>, off: nat, data: seq<Byte>, at: nat, n: nat)
    requires off <= |s| && off + |data| < UINT && |s| < UINT && off <= at && at + n <= off + |data|
    ensures Readable(Spliced(s, off, data), at, n) == data[at - off..at - off + n]
  {
    var t := Spliced(s, off, data);
    assert forall i :: 0 <= i < |data| ==> t[off + i] == data[i];
    assert t[at..at + n] == data[at - off..at - off + n];
  }

  // filewrite.

  /** filewrite's max: half of what is left of MAXOPBLOCKS without inode, indirect block and two more. */
  const CHUNK: nat := 3072

  /** A struct file of type FD_INODE. */
  class OpenFile {
    const writable: bool
    const ino: nat
    var off: nat

    constructor (writable: bool, ino: nat, off: nat)
      ensures this.writable == writable && this.ino == ino && this.off == off
    {
      this.writable, this.ino, this.off := writable, ino, off;
    }
  }

  /** What one chunk can log: the blocks in v and two more, and a bitmap block for each allocation. */
  lemma ChunkBound(off: nat, n: nat)
    requires n <= CHUNK
    ensures CHUNK == (MAXOPBLOCKS - 1 - 1 - 2) / 2 * BSIZE
    ensures Span(off, n) + 2 + Span(off, n) + (if off % BSIZE == 0 then 1 else 0) <= MAXOPBLOCKS
    ensures Span(off, n) + 2 <= 6 && Span(off, n) + (if off % BSIZE == 0 then 1 else 0) <= 4
  {
  }

  lemma OneBitmapBlock(d: Disk)
    requires d.BitsOk() && |d.used| <= BPB
    ensures |d.bits| <= 1
  {
    forall x | x in d.bits
      ensures x == d.bmapStart
    {
      assert (x - d.bmapStart) * BPB < BPB;
    }
    assert d.bits <= {d.bmapStart};
    SubsetSize(d.bits, {d.bmapStart});
  }

  /**
   One transaction of filewrite. However the file system and the offset stand, it logs at most MAXOPBLOCKS blocks, what
   begin_op reserves for it; at most 7 when one bitmap block covers the disk.
   */
  method WriteTransaction(d: Disk, inodeStart: nat, f: OpenFile, n: nat, src: seq<Byte>) returns (r: int, ghost w: nat)
    requires Wf(d.State()) && f.ino in d.inodes && f.off < UINT && n <= CHUNK
    modifies d, f
    ensures Wf(d.State()) && f.ino in d.inodes && OthersSame(old(d.State()), d.State(), f.ino)
    ensures |d.bits| + |d.others| <= MAXOPBLOCKS
    ensures |d.used| <= BPB ==> |d.bits| + |d.others| <= 7
    ensures d.Left() + 4 >= old(d.Left())
    ensures Refused(old(d.inodes)[f.ino].size, old(f.off), n) ==> r == -1 && d.State() == old(d.State()) && f.off == old(f.off)
    ensures !Refused(old(d.inodes)[f.ino].size, old(f.off), n) ==>
              && r >= 0 && Outcome(d.used, old(f.off), n, |src|, r, w) && f.off == old(f.off) + r
              && Contents(d.State(), f.ino) == Overlaid(old(Contents(d.State(), f.ino)), old(f.off), src[..w], old(f.off) + r)
  {
    hide Wf, Contents, Span, Outcome, OthersSame;
    d.BeginOp();
    r, w := Writei(d, inodeStart, f.ino, f.off, n, src);
    ChunkBound(f.off, n);
    assert d.others - {} == d.others;
    if |d.used| <= BPB {
      OneBitmapBlock(d);
    }
    if r > 0 {
      f.off := f.off + r;
    }
  }

  /** A splice that goes on where another ended. */
  lemma SpliceOn(s: seq<Byte>, off: nat, src: seq<Byte>, i: nat, w: nat, r: nat)
    requires off <= |s| && r <= w && i + w <= |src|
    ensures off + i <= |Spliced(s, off, src[..i])|
    ensures Overlaid(Spliced(s, off, src[..i]), off + i, src[i..][..w], off + i + r) == Overlaid(s, off, src[..i + w], off + i + r)
    ensures r == w ==> Overlaid(s, off, src[..i + w], off + i + r) == Spliced(s, off, src[..i + w])
  {
    var t := Spliced(s, off, src[..i]);
    assert src[i..][..w] == src[i..i + w];
    assert Spliced(t, off + i, src[i..i + w]) == Spliced(s, off, src[..i + w]);
    assert |t| == Max(|s|, off + i);
  }

  /** What no disk, however empty, can make up for: a hole, a file too large, an unreadable source. */
  predicate Hopeless(size: nat, off: nat, n: int, avail: nat) {
    n > 0 && (off > size || off + n > MAXFILE * BSIZE || avail < n)
  }

  /**
   How far the offset moves over n bytes, with avail of them readable, on a disk that does not fill up: over all of them; or
   over as many chunks as fit in a file; or over the chunks that can be read and the blocks that are filled by the last one.
   */
  function Moved(off: nat, n: nat, avail: nat): nat {
    if avail >= n && off + n <= MAXFILE * BSIZE then n
    else if off + n > MAXFILE * BSIZE && InFile(off) <= avail then InFile(off)
    else Chunks(avail) + Reported(off + Chunks(avail), avail - Chunks(avail))
  }

  /** Of n bytes, those in whole chunks. */
  function Chunks(n: nat): (r: nat)
    ensures r <= n < r + CHUNK && (n < CHUNK ==> r == 0) && (n >= CHUNK ==> r >= CHUNK)
  {
    n / CHUNK * CHUNK
  }

  /** The bytes in whole chunks that a file has room for after off. */
  function InFile(off: nat): nat {
    if off <= MAXFILE * BSIZE then Chunks(MAXFILE * BSIZE - off) else 0
  }

  /** How many bytes are in the file then. */
  function Put(off: nat, n: nat, avail: nat): nat {
    if avail >= n && off + n <= MAXFILE * BSIZE then n
    else if off + n > MAXFILE * BSIZE && InFile(off) <= avail then InFile(off)
    else avail
  }

  /** The offset moves at all exactly if the first chunk fits in the file and its first block, or all of it, can be read. */
  lemma MovedAtAll(off: nat, n: nat, avail: nat)
    requires n > 0 && off <= MAXFILE * BSIZE
    ensures Moved(off, n, avail) > 0 <==>
            && off + (if n < CHUNK then n else CHUNK) <= MAXFILE * BSIZE
            && avail >= if n < BSIZE - off % BSIZE then n else BSIZE - off % BSIZE
  {
    hide Chunks, Reported;
    ReportedAtAll(off + Chunks(avail), avail - Chunks(avail));
    if avail < CHUNK {
      assert Chunks(avail) == 0;
    }
  }

  lemma ReportedAtAll(off: nat, avail: nat)
    ensures Reported(off, avail) > 0 <==> avail >= BSIZE - off % BSIZE
  {
    if avail >= BSIZE - off % BSIZE {
      var q := (off + avail) / BSIZE;
      assert off + avail == BSIZE * q + (off + avail) % BSIZE && off == BSIZE * (off / BSIZE) + off % BSIZE;
      assert off + avail >= BSIZE * (off / BSIZE + 1);
      assert q >= off / BSIZE + 1;
    }
  }

  lemma WholeChunks(a: nat, q: nat)
    requires q * CHUNK <= a < q * CHUNK + CHUNK
    ensures Chunks(a) == q * CHUNK
  {
  }

  /** Where filewrite stops: at a chunk that is refused, or at one that cannot be read to its end. */
  lemma StopsThere(off: nat, n: nat, avail: nat, q: nat)
    requires off <= MAXFILE * BSIZE && q * CHUNK < n && q * CHUNK <= avail && off + q * CHUNK <= MAXFILE * BSIZE
    ensures var i := q * CHUNK;
            var n1 := if n - i > CHUNK then CHUNK else n - i;
            && (off + i + n1 > MAXFILE * BSIZE ==> Moved(off, n, avail) == i == Put(off, n, avail))
            && (off + i + n1 <= MAXFILE * BSIZE && avail < i + n1 ==>
                  Moved(off, n, avail) == i + Reported(off + i, avail - i) && Put(off, n, avail) == avail)
  {
    hide Reported, Chunks;
    var i := q * CHUNK;
    var n1 := if n - i > CHUNK then CHUNK else n - i;
    if off + i + n1 > MAXFILE * BSIZE {
      WholeChunks(MAXFILE * BSIZE - off, q);
    } else if avail < i + n1 {
      WholeChunks(avail, q);
      if off + n > MAXFILE * BSIZE {
        assert n1 == CHUNK && InFile(off) >= i + CHUNK by {
          InFileMore(off, q);
        }
      }
    }
  }

  lemma InFileMore(off: nat, q: nat)
    requires off + q * CHUNK + CHUNK <= MAXFILE * BSIZE
    ensures InFile(off) >= q * CHUNK + CHUNK
  {
    var room := MAXFILE * BSIZE - off;
    assert room / CHUNK >= q + 1 by {
      assert room >= CHUNK * (q + 1);
    }
  }

  /** What filewrite has done to a file of the given size. */
  predicate Progress(used: seq<bool>, size: nat, off: nat, n: int, avail: nat, moved: int, w: nat) {
    n > 0 && off <= size ==> Full(used) || (moved == Moved(off, n, avail) && w == Put(off, n, avail))
  }

  /** A full disk has no block left. */
  lemma FullMeans(d: Disk)
    requires Full(d.used)
    ensures d.Left() == 0
  {
    assert FreeOf(d.dataStart, d.used) == {};
  }

  /**
   filewrite, of a file that nobody else changes meanwhile. All n bytes are in the file, or -1: and that only if the write is
   hopeless or the disk is full. A hopeless write moves the offset, and leaves bytes in the file, exactly as Moved and Put
   say. The disk does not fill up if it has more than four blocks for each chunk.
   */
  method FileWrite(d: Disk, inodeStart: nat, f: OpenFile, n: int, src: seq<Byte>) returns (r: int, ghost w: nat)
    requires Wf(d.State()) && f.ino in d.inodes && f.off < UINT
    modifies d, f
    ensures Wf(d.State()) && f.ino in d.inodes && OthersSame(old(d.State()), d.State(), f.ino)
    ensures !f.writable ==> r == -1 && d.State() == old(d.State()) && f.off == old(f.off)
    ensures r == -1 || (r == n >= 0 && f.writable)
    ensures r == -1 && f.writable && n >= 0 ==> Hopeless(old(d.inodes)[f.ino].size, old(f.off), n, |src|) || Full(d.used)
    ensures Hopeless(old(d.inodes)[f.ino].size, old(f.off), n, |src|) ==> r == -1
    ensures r == n >= 0 ==> f.off == old(f.off) + n == old(f.off) + w
    ensures old(f.off) > old(|Contents(d.State(), f.ino)|) ==> d.State() == old(d.State()) && f.off == old(f.off)
    ensures f.writable ==> Progress(d.used, old(d.inodes)[f.ino].size, old(f.off), n, |src|, f.off - old(f.off), w)
    ensures n > 0 && old(d.Left()) > (n + CHUNK - 1) / CHUNK * 4 ==> !Full(d.used)
    ensures old(f.off) <= old(|Contents(d.State(), f.ino)|) ==>
              && old(f.off) <= f.off <= old(f.off) + w && w <= |src|
              && Contents(d.State(), f.ino) == Overlaid(old(Contents(d.State(), f.ino)), old(f.off), src[..w], f.off)
  {
    hide Wf, Contents, Overlaid, Spliced, Outcome, OthersSame, Full, Moved, Put, Reported, FreeOf, Shape;
    w := 0;
    ghost var fs0 := d.State();
    WfShape(fs0, f.ino);
    OthersSameStart(fs0, f.ino);
    ghost var c, off, left, q := Contents(fs0, f.ino), f.off, d.Left(), 0;
    if off <= |c| {
      NothingWritten(c, off, src);
    }
    if !f.writable {
      NotFilled(d, left, n, 0);
      return -1, 0;
    }
    var i := 0;
    while i < n
      invariant 0 <= i && (i <= n || i == 0) && w == i <= |src| && f.off == off + i
      invariant Wf(d.State()) && Shape(d.State()) && f.ino in d.inodes && OthersSame(fs0, d.State(), f.ino)
      invariant i == 0 ==> d.State() == fs0
      invariant i > 0 ==> off <= |c| && off + i <= MAXFILE * BSIZE
      invariant off <= |c| ==> Contents(d.State(), f.ino) == Spliced(c, off, src[..i])
      invariant (i < n ==> i == q * CHUNK) && (q > 0 ==> (q - 1) * CHUNK < n) && d.Left() + 4 * q >= left
    {
      var n1 := if n - i > CHUNK then CHUNK else n - i;
      ghost var fs := d.State();
      WfShape(fs, f.ino);
      if off <= |c| {
        SpliceOn(c, off, src, i, 0, 0);
        StopsThere(off, n, |src|, q);
      }
      ghost var w1;
      var r1;
      r1, w1 := WriteTransaction(d, inodeStart, f, n1, src[i..]);
      q := q + 1;
      WfShape(d.State(), f.ino);
      OthersSameOn(fs0, fs, d.State(), f.ino);
      if r1 >= 0 {
        OutcomeFacts(d.used, off + i, n1, |src| - i, r1, w1);
        SpliceOn(c, off, src, i, w1, r1);
      } else {
        w1 := 0;
      }
      if r1 != n1 {
        w := i + w1;
        break;
      }
      i := i + r1;
      w := i;
    }
    if off <= |c| && i == w {
      SpliceOn(c, off, src, i, 0, 0);
    }
    if i == n {
      MovedAll(off, n, |src|);
    }
    NotFilled(d, left, n, q);
    r := if i == n then n else -1;
  }

  lemma MovedAll(off: nat, n: nat, avail: nat)
    requires n <= avail && (n > 0 ==> off + n <= MAXFILE * BSIZE)
    ensures n > 0 ==> Moved(off, n, avail) == n == Put(off, n, avail)
  {
  }

  lemma NotFilled(d: Disk, left: nat, n: int, q: nat)
    requires d.Left() + 4 * q >= left && (q > 0 ==> (q - 1) * CHUNK < n)
    ensures n > 0 && left > (n + CHUNK - 1) / CHUNK * 4 ==> !Full(d.used)
  {
    if n > 0 {
      assert q <= (n + CHUNK - 1) / CHUNK;
    }
    if Full(d.used) {
      FullMeans(d);
    }
  }

  /** A disk of one metadata block and the given number of data blocks, all free, with one empty file. */
  function Blank(blocks: nat): Fs {
    Fs(1, seq(1 + blocks, i => i < 1), seq(1 + blocks, _ => ZeroBlock()), map[1 := Inode(seq(NDIRECT + 1, _ => 0), 0)], map[])
  }

  lemma BlankWf(blocks: nat)
    requires 1 + blocks < UINT
    ensures Wf(Blank(blocks)) && |FreeBlocks(Blank(blocks))| == blocks
  {
    hide Wf, ZeroBlock;
    var fs := Blank(blocks);
    FormattedWf(fs);
    DataCount(fs, |fs.used|);
    assert FreeBlocks(fs) == DataBelow(fs, |fs.used|);
  }

  /** Writes of n bytes to an empty file on an empty disk, with avail of them readable. */
  method WriteFresh(blocks: nat, n: nat, src: seq<Byte>) returns (r: int, off: nat)
    requires blocks + 1 < UINT && n > 0 && blocks > (n + CHUNK - 1) / CHUNK * 4
    ensures off == Moved(0, n, |src|)
    ensures r == if n > MAXFILE * BSIZE || |src| < n then -1 else n
  {
    hide Wf, Moved, Put, ZeroBlock;
    BlankWf(blocks);
    var d := new Disk(Blank(blocks), 0);
    var f := new OpenFile(true, 1, 0);
    ghost var w;
    r, w := FileWrite(d, 0, f, n, src);
    off := f.off;
  }

  /** filewrite fails, yet the offset has moved: past what could be read, and past what a file can hold. */
  method FailsAfterMoving(b: Byte) returns (r: int, off: nat, r': int, off': nat)
    ensures r == -1 && off == 3072 == Moved(0, 5000, 4000)
    ensures r' == -1 && off' == 273408 == Moved(0, 280000, 280000)
  {
    hide Moved;
    StopsThere(0, 5000, 4000, 1);
    StopsThere(0, 280000, 280000, 89);
    r, off := WriteFresh(20, 5000, seq(4000, _ => b));
    r', off' := WriteFresh(400, 280000, seq(280000, _ => b));
  }

  lemma OthersSameStart(fs: Fs, ino: nat)
    requires Shape(fs)
    ensures OthersSame(fs, fs, ino)
  {
  }

  lemma OthersSameOn(fs0: Fs, fs1: Fs, fs2: Fs, ino: nat)
    requires OthersSame(fs0, fs1, ino) && OthersSame(fs1, fs2, ino)
    ensures OthersSame(fs0, fs2, ino)
  {
    hide Contents;
  }

  lemma OutcomeFacts(used: seq<bool>, off: nat, n: nat, avail: nat, r: nat, w: nat)
    requires Outcome(used, off, n, avail, r, w)
    ensures r <= w <= n && w <= avail && (r < n ==> Full(used) || (w == avail < n && r == Reported(off, avail)))
  {
  }

  lemma NothingWritten(c: seq<Byte>, off: nat, src: seq<Byte>)
    requires off <= |c|
    ensures Spliced(c, off, src[..0]) == c && Overlaid(c, off, src[..0], off) == c
  {
    assert c == c[..off] + c[off..];
  }

  // Runs.

  type Uint = x: nat | x < UINT

  datatype FileOp =
    | ReadOp(ino: nat, off: Uint, n: Uint, room: nat)
    | WriteOp(ino: nat, off: Uint, n: Uint, src: seq<Byte>)
    | TruncOp(ino: nat)

  /** What the caller gets: the return value and the bytes read; and how many bytes of the source were put into the file. */
  datatype Out = Out(r: int, data: seq<Byte>, w: nat)

  /** Each file as the sequence of its bytes. */
  function Files(fs: Fs): map<nat, seq<Byte>>
    requires Shape(fs)
  {
    map j | j in fs.inodes :: Contents(fs, j)
  }

  /** The reference machine, which has no blocks. */
  function FileStep(files: map<nat, seq<Byte>>, op: FileOp, w: nat, r: int): map<nat, seq<Byte>> {
    if op.ino !in files then files
    else
      var s := files[op.ino];
      match op
      case ReadOp(_, _, _, _) => files
      case WriteOp(ino, off, n, src) =>
        if r < 0 || off > |s| || w > |src| || r > w then files
        else files[ino := Overlaid(s, off, src[..w], off + r)]
      case TruncOp(ino) => files[ino := []]
  }

  /** What the reference machine allows as the outcome of an operation. */
  predicate Allowed(files: map<nat, seq<Byte>>, op: FileOp, out: Out, used: seq<bool>) {
    op.ino in files ==>
      var s := files[op.ino];
      match op
      case ReadOp(_, off, n, room) =>
        var t := Readable(s, off, n);
        if |t| <= room then out.r == |t| && out.data == t else out.r == -1 && out.data == t[..room]
      case WriteOp(_, off, n, src) =>
        if Refused(|s|, off, n) then out.r == -1
        else out.r >= 0 && Outcome(used, off, n, |src|, out.r, out.w)
      case TruncOp(_) => true
  }

  /** One operation, in a transaction of its own. */
  method Do(d: Disk, inodeStart: nat, op: FileOp) returns (r: int, data: seq<Byte>, ghost w: nat)
    requires Wf(d.State())
    modifies d
    ensures Wf(d.State()) && Shape(old(d.State())) && Shape(d.State())
    ensures Files(d.State()) == FileStep(old(Files(d.State())), op, w, r)
    ensures Allowed(old(Files(d.State())), op, Out(r, data, w), d.used)
    ensures |d.used| == |old(d.used)|
  {
    hide Wf, Owned, Shape, Contents, Overlaid, Outcome, Readable, Truncated;
    WfShape(d.State(), op.ino);
    r, data, w := 0, [], 0;
    if op.ino !in d.inodes {
      return;
    }
    d.BeginOp();
    match op
    case ReadOp(ino, off, n, room) =>
      r, data := Readi(d, ino, off, n, room);
    case WriteOp(ino, off, n, src) =>
      r, w := Writei(d, inodeStart, ino, off, n, src);
      if r >= 0 {
        OutcomeFacts(d.used, off, n, |src|, r, w);
      }
      WfShape(d.State(), ino);
      FilesWritten(old(d.State()), d.State(), ino);
    case TruncOp(ino) =>
      TruncatedContents(d.State(), ino);
      d.Itrunc(ino);
      WfShape(d.State(), ino);
      FilesTruncated(old(d.State()), ino);
  }

  lemma FilesWritten(fs0: Fs, fs: Fs, ino: nat)
    requires OthersSame(fs0, fs, ino) && ino in fs0.inodes
    ensures Files(fs) == Files(fs0)[ino := Contents(fs, ino)] && |fs.used| == |fs0.used|
  {
    hide Contents;
  }

  lemma FilesTruncated(fs: Fs, ino: nat)
    requires Wf(fs) && Shape(fs) && ino in fs.inodes
    ensures Shape(Truncated(fs, ino)) && Files(Truncated(fs, ino)) == Files(fs)[ino := []]
    ensures |Truncated(fs, ino).used| == |fs.used|
  {
    hide Contents;
    TruncatedContents(fs, ino);
  }

  ghost function FileRun(files: map<nat, seq<Byte>>, ops: seq<FileOp>, outs: seq<Out>): map<nat, seq<Byte>>
    requires |ops| == |outs|
  {
    if ops == [] then files
    else
      var k := |ops| - 1;
      FileStep(FileRun(files, ops[..k], outs[..k]), ops[k], outs[k].w, outs[k].r)
  }

  /** Each outcome is one that the reference machine allows where it then stands, the bitmap being one of the given ones. */
  ghost predicate RunAllowed(files: map<nat, seq<Byte>>, ops: seq<FileOp>, outs: seq<Out>, maps: seq<seq<bool>>) {
    && |ops| == |outs| == |maps|
    && forall k :: 0 <= k < |ops| ==> AllowedAt(files, ops, outs, maps, k)
  }

  ghost predicate AllowedAt(files: map<nat, seq<Byte>>, ops: seq<FileOp>, outs: seq<Out>, maps: seq<seq<bool>>, k: nat)
    requires k < |ops| == |outs| == |maps|
  {
    Allowed(FileRun(files, ops[..k], outs[..k]), ops[k], outs[k], maps[k])
  }

  /**
   Any sequence of operations on any files. They return and leave what the machine without blocks would, and no data block
   is lost: the free ones and those referred to, each from one place, stay as many.
   */
  method Run(d: Disk, inodeStart: nat, ops: seq<FileOp>) returns (ghost outs: seq<Out>, ghost maps: seq<seq<bool>>)
    requires Wf(d.State())
    modifies d
    ensures Wf(d.State()) && Shape(d.State()) && Shape(old(d.State()))
    ensures RunAllowed(old(Files(d.State())), ops, outs, maps)
    ensures Files(d.State()) == FileRun(old(Files(d.State())), ops, outs)
    ensures |FreeBlocks(d.State())| + |d.owner| == old(|FreeBlocks(d.State())| + |d.owner|)
  {
    hide Wf, Owned, Shape, Files, FileStep, Allowed, FreeBlocks, RunAllowed;
    WfShape(d.State(), 0);
    BlocksConserved(d.State());
    ghost var files := Files(d.State());
    outs, maps := [], [];
    AllowedNone(files);
    var k := 0;
    assert ops[..0] == [];
    while k < |ops|
      invariant 0 <= k <= |ops| && |outs| == k
      invariant Wf(d.State()) && Shape(d.State()) && |d.used| == |old(d.used)|
      invariant Files(d.State()) == FileRun(files, ops[..k], outs)
      invariant RunAllowed(files, ops[..k], outs, maps)
    {
      var r, data;
      ghost var w;
      r, data, w := Do(d, inodeStart, ops[k]);
      AllowedMore(files, ops, k, outs, maps, Out(r, data, w), d.used);
      outs, maps := outs + [Out(r, data, w)], maps + [d.used];
      k := k + 1;
    }
    assert ops[..k] == ops;
    WfShape(d.State(), 0);
    BlocksConserved(d.State());
  }

  lemma AllowedNone(files: map<nat, seq<Byte>>)
    ensures RunAllowed(files, [], [], []) && FileRun(files, [], []) == files
  {
  }

  lemma AllowedMore(files: map<nat, seq<Byte>>, ops: seq<FileOp>, k: nat, outs: seq<Out>, maps: seq<seq<bool>>,
                    out: Out, used: seq<bool>)
    requires k < |ops| && RunAllowed(files, ops[..k], outs, maps)
    requires Allowed(FileRun(files, ops[..k], outs), ops[k], out, used)
    ensures RunAllowed(files, ops[..k + 1], outs + [out], maps + [used])
    ensures FileRun(files, ops[..k + 1], outs + [out]) == FileStep(FileRun(files, ops[..k], outs), ops[k], out.w, out.r)
  {
    FileRunMore(files, ops, k, outs, out);
    hide Allowed, FileStep, FileRun;
    var ops', outs', maps' := ops[..k + 1], outs + [out], maps + [used];
    forall m | 0 <= m <= k
      ensures AllowedAt(files, ops', outs', maps', m)
    {
      AllowedStill(files, ops, k, outs, maps, out, used, m);
    }
  }

  lemma FileRunMore(files: map<nat, seq<Byte>>, ops: seq<FileOp>, k: nat, outs: seq<Out>, out: Out)
    requires k < |ops| && |outs| == k
    ensures FileRun(files, ops[..k + 1], outs + [out]) == FileStep(FileRun(files, ops[..k], outs), ops[k], out.w, out.r)
  {
    hide FileStep;
    assert ops[..k + 1][..k] == ops[..k] && (outs + [out])[..k] == outs;
  }

  lemma AllowedStill(files: map<nat, seq<Byte>>, ops: seq<FileOp>, k: nat, outs: seq<Out>, maps: seq<seq<bool>>,
                     out: Out, used: seq<bool>, m: nat)
    requires m <= k < |ops| && RunAllowed(files, ops[..k], outs, maps)
    requires Allowed(FileRun(files, ops[..k], outs), ops[k], out, used)
    ensures AllowedAt(files, ops[..k + 1], outs + [out], maps + [used], m)
  {
    hide Allowed, FileRun;
    assert ops[..k + 1][..m] == ops[..k][..m] && (outs + [out])[..m] == outs[..m];
    if m < k {
      assert AllowedAt(files, ops[..k], outs, maps, m);
    } else {
      assert ops[..k][..k] == ops[..k] && outs[..k] == outs;
    }
  }
}

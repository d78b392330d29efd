/**
 The blocks of files, kernel/fs.c: the free bitmap, the direct and indirect block numbers of inodes, and what bmap and
 itrunc do to them. Every block in use is referred to from exactly one place, and every free block from none.
 */
module FileBlocks {
  import opened Collections

  const BSIZE: nat := 1024
  const NDIRECT: nat := 12
  const NINDIRECT: nat := 256
  const MAXFILE: nat := 268
  const UINT: nat := 0x1_0000_0000

  type Byte = x: int | 0 <= x < 256

  datatype Block = Block(bytes: seq<Byte>)

  /** addrs are NDIRECT block numbers and that of the indirect block; 0 means none. */
  datatype Inode = Inode(addrs: seq<nat>, size: nat)

  /** A place that can hold a block number: addrs[k] of inode ino, or entry k - 13 of its indirect block. */
  datatype Slot = Slot(ino: nat, k: nat)

  const INDIRECT: nat := 12
  const SLOTS: nat := 269

  /**
   used is the bitmap, blocks the blocks as the operations in progress have left them, dataStart the first block that is
   not metadata. owner says which slot holds the number of each data block in use.
   */
  datatype Fs = Fs(
    dataStart: nat,
    used: seq<bool>,
    blocks: seq<Block>,
    inodes: map<nat, Inode>,
    owner: map<nat, Slot>
  )

  // Block numbers in an indirect block.

  predicate WfBlock(b: Block) {
    |b.bytes| == BSIZE
  }

  function Word(b: Block, j: nat): (w: nat)
    requires WfBlock(b) && j < NINDIRECT
    ensures w < UINT
  {
    Number(b.bytes[4 * j], b.bytes[4 * j + 1], b.bytes[4 * j + 2], b.bytes[4 * j + 3])
  }

  function Number(b0: int, b1: int, b2: int, b3: int): int {
    b0 + 0x100 * b1 + 0x1_0000 * b2 + 0x100_0000 * b3
  }

  function Digit0(v: nat): nat { v % 0x100 }
  function Digit1(v: nat): nat { v / 0x100 % 0x100 }
  function Digit2(v: nat): nat { v / 0x100 / 0x100 % 0x100 }
  function Digit3(v: nat): nat { v / 0x100 / 0x100 / 0x100 }

  lemma NumberDigits(v: nat)
    ensures Number(Digit0(v), Digit1(v), Digit2(v), Digit3(v)) == v
    ensures v < UINT ==> Digit3(v) < 0x100
  {
    var q := v / 0x100;
    var r := q / 0x100;
    assert v == 0x100 * q + v % 0x100 && q == 0x100 * r + q % 0x100 && r == 0x100 * (r / 0x100) + r % 0x100;
  }

  function PutWord(b: Block, j: nat, v: nat): (r: Block)
    requires WfBlock(b) && j < NINDIRECT && v < UINT
    ensures WfBlock(r)
  {
    NumberDigits(v);
    Block(b.bytes[4 * j := Digit0(v)][4 * j + 1 := Digit1(v)][4 * j + 2 := Digit2(v)][4 * j + 3 := Digit3(v)])
  }

  lemma WordPut(b: Block, j: nat, v: nat, k: nat)
    requires WfBlock(b) && j < NINDIRECT && v < UINT && k < NINDIRECT
    ensures Word(PutWord(b, j, v), k) == if k == j then v else Word(b, k)
  {
    hide Number, Digit0, Digit1, Digit2, Digit3;
    NumberDigits(v);
  }

  function ZeroBlock(): (b: Block)
    ensures WfBlock(b)
  {
    Block(seq(BSIZE, _ => 0))
  }

  lemma WordZero(k: nat)
    requires k < NINDIRECT
    ensures Word(ZeroBlock(), k) == 0
  {
  }

  // References.

  predicate Shape(fs: Fs) {
    && 1 <= fs.dataStart <= |fs.used| == |fs.blocks| < UINT
    && (forall b :: 0 <= b < |fs.blocks| ==> WfBlock(fs.blocks[b]))
    && (forall i :: i in fs.inodes ==> |fs.inodes[i].addrs| == NDIRECT + 1)
  }

  /** The block number in a slot, 0 if there is none. */
  function Ref(fs: Fs, slot: Slot): nat
    requires Shape(fs)
  {
    if slot.ino !in fs.inodes || slot.k >= SLOTS then 0
    else
      var a := fs.inodes[slot.ino].addrs;
      if slot.k <= INDIRECT then a[slot.k]
      else if 0 < a[INDIRECT] < |fs.blocks| then Word(fs.blocks[a[INDIRECT]], slot.k - 13)
      else 0
  }

  /** The slot of the bn-th block of a file. */
  function SlotOf(ino: nat, bn: nat): Slot {
    Slot(ino, if bn < NDIRECT then bn else bn + 1)
  }

  predicate IsData(fs: Fs, b: nat) {
    fs.dataStart <= b < |fs.used|
  }

  predicate UsedOk(fs: Fs, b: nat)
    requires Shape(fs) && b < |fs.used|
  {
    && (b < fs.dataStart ==> fs.used[b] && b !in fs.owner)
    && (b >= fs.dataStart ==> (fs.used[b] <==> b in fs.owner))
  }

  predicate OwnerOk(fs: Fs, b: nat)
    requires Shape(fs) && b in fs.owner
  {
    IsData(fs, b) && fs.used[b] && Ref(fs, fs.owner[b]) == b
  }

  predicate SlotOk(fs: Fs, slot: Slot)
    requires Shape(fs)
  {
    Ref(fs, slot) != 0 ==> Ref(fs, slot) in fs.owner && fs.owner[Ref(fs, slot)] == slot
  }

  /** Each data block in use is in exactly one slot, each free block in none. */
  ghost predicate Owned(fs: Fs) {
    && Shape(fs)
    && (forall b :: 0 <= b < |fs.used| ==> UsedOk(fs, b))
    && (forall b :: b in fs.owner ==> OwnerOk(fs, b))
    && (forall slot :: SlotOk(fs, slot))
  }

  /** No two slots hold the same number. */
  lemma RefsDiffer(fs: Fs, a: Slot, b: Slot)
    requires Owned(fs) && Ref(fs, a) == Ref(fs, b) != 0
    ensures a == b
  {
    assert SlotOk(fs, a) && SlotOk(fs, b);
  }

  lemma RefUsed(fs: Fs, slot: Slot)
    requires Owned(fs) && Ref(fs, slot) != 0
    ensures IsData(fs, Ref(fs, slot)) && fs.used[Ref(fs, slot)]
    ensures Ref(fs, slot) in fs.owner && fs.owner[Ref(fs, slot)] == slot
  {
    assert SlotOk(fs, slot);
    assert OwnerOk(fs, Ref(fs, slot));
  }

  // Giving a new block to an empty slot.

  /** balloc's block b, zeroed, entered in the slot. */
  function Given(fs: Fs, b: nat, slot: Slot): Fs
    requires Shape(fs) && b < |fs.used| && slot.ino in fs.inodes && slot.k < SLOTS
    requires slot.k > INDIRECT ==> 0 < fs.inodes[slot.ino].addrs[INDIRECT] < |fs.blocks|
  {
    var ip := fs.inodes[slot.ino];
    var blocks := fs.blocks[b := ZeroBlock()];
    fs.(used := fs.used[b := true],
        owner := fs.owner[b := slot],
        inodes := if slot.k <= INDIRECT then fs.inodes[slot.ino := ip.(addrs := ip.addrs[slot.k := b])] else fs.inodes,
        blocks := if slot.k <= INDIRECT then blocks
                  else blocks[ip.addrs[INDIRECT] := PutWord(blocks[ip.addrs[INDIRECT]], slot.k - 13, b)])
  }

  ghost predicate CanGive(fs: Fs, b: nat, slot: Slot) {
    && Owned(fs)
    && IsData(fs, b) && !fs.used[b]
    && slot.ino in fs.inodes && slot.k < SLOTS && Ref(fs, slot) == 0
    && (slot.k > INDIRECT ==> Ref(fs, Slot(slot.ino, INDIRECT)) != 0)
  }

  /** The indirect block of a file is not the new block, nor that of another file. */
  lemma IndirectBlock(fs: Fs, ino: nat)
    requires Owned(fs) && ino in fs.inodes
    ensures var p := fs.inodes[ino].addrs[INDIRECT];
            p != 0 ==> p == Ref(fs, Slot(ino, INDIRECT)) && IsData(fs, p) && fs.used[p] && p in fs.owner && fs.owner[p] == Slot(ino, INDIRECT)
  {
    if fs.inodes[ino].addrs[INDIRECT] != 0 {
      RefUsed(fs, Slot(ino, INDIRECT));
    }
  }

  lemma GivenRef(fs: Fs, b: nat, slot: Slot, t: Slot)
    requires CanGive(fs, b, slot)
    requires slot.k > INDIRECT ==> 0 < fs.inodes[slot.ino].addrs[INDIRECT] < |fs.blocks|
    ensures Shape(Given(fs, b, slot))
    ensures Ref(Given(fs, b, slot), t) == if t == slot then b else Ref(fs, t)
  {
    hide Word, PutWord, ZeroBlock;
    IndirectBlock(fs, slot.ino);
    if t.ino in fs.inodes {
      IndirectBlock(fs, t.ino);
      if INDIRECT < t.k < SLOTS {
        WordZero(t.k - 13);
        if slot.k > INDIRECT {
          WordPut(fs.blocks[fs.inodes[slot.ino].addrs[INDIRECT]], slot.k - 13, b, t.k - 13);
        }
      }
    }
  }

  lemma GivenKeeps(fs: Fs, b: nat, slot: Slot)
    requires CanGive(fs, b, slot)
    requires slot.k > INDIRECT ==> 0 < fs.inodes[slot.ino].addrs[INDIRECT] < |fs.blocks|
    ensures Owned(Given(fs, b, slot))
  {
    hide Ref;
    var fs' := Given(fs, b, slot);
    GivenRef(fs, b, slot, slot);
    forall c | 0 <= c < |fs'.used|
      ensures UsedOk(fs', c)
    {
      assert UsedOk(fs, c);
    }
    forall c | c in fs'.owner
      ensures OwnerOk(fs', c)
    {
      if c != b {
        assert OwnerOk(fs, c);
      }
      GivenRef(fs, b, slot, fs'.owner[c]);
    }
    forall t
      ensures SlotOk(fs', t)
    {
      GivenRef(fs, b, slot, t);
      assert SlotOk(fs, t);
    }
  }

  // Overwriting a data block.

  function Overwritten(fs: Fs, b: nat, data: Block): Fs
    requires b < |fs.blocks|
  {
    fs.(blocks := fs.blocks[b := data])
  }

  lemma OverwrittenRef(fs: Fs, b: nat, data: Block, t: Slot)
    requires Owned(fs) && b in fs.owner && fs.owner[b].k != INDIRECT && WfBlock(data) && b < |fs.blocks|
    ensures Shape(Overwritten(fs, b, data)) && Ref(Overwritten(fs, b, data), t) == Ref(fs, t)
  {
    if t.ino in fs.inodes {
      IndirectBlock(fs, t.ino);
    }
  }

  lemma OverwrittenKeeps(fs: Fs, b: nat, data: Block)
    requires Owned(fs) && b in fs.owner && fs.owner[b].k != INDIRECT && WfBlock(data) && b < |fs.blocks|
    ensures Owned(Overwritten(fs, b, data))
  {
    hide Ref;
    var fs' := Overwritten(fs, b, data);
    OverwrittenRef(fs, b, data, Slot(0, 0));
    forall c | 0 <= c < |fs'.used|
      ensures UsedOk(fs', c)
    {
      assert UsedOk(fs, c);
    }
    forall c | c in fs'.owner
      ensures OwnerOk(fs', c)
    {
      assert OwnerOk(fs, c);
      OverwrittenRef(fs, b, data, fs'.owner[c]);
    }
    forall t
      ensures SlotOk(fs', t)
    {
      OverwrittenRef(fs, b, data, t);
      assert SlotOk(fs, t);
    }
  }

  // Truncation.

  /** b is in one of the slots ks of inode ino. */
  predicate Drops(fs: Fs, ino: nat, ks: set<nat>, b: nat) {
    b in fs.owner && fs.owner[b].ino == ino && fs.owner[b].k in ks
  }

  /** The bitmap with the blocks in those slots freed. */
  function UsedWithout(fs: Fs, ino: nat, ks: set<nat>): seq<bool> {
    seq(|fs.used|, b requires 0 <= b < |fs.used| => fs.used[b] && !Drops(fs, ino, ks, b))
  }

  /** After itrunc. */
  function Truncated(fs: Fs, ino: nat): Fs {
    fs.(used := UsedWithout(fs, ino, AllSlots()),
        inodes := fs.inodes[ino := Inode(seq(NDIRECT + 1, _ => 0), 0)],
        owner := map b | b in fs.owner && fs.owner[b].ino != ino :: fs.owner[b])
  }

  function AllSlots(): set<nat> {
    set k: nat | k < SLOTS && Under(k, SLOTS)
  }

  lemma SlotsBelow(fs: Fs, b: nat)
    requires Owned(fs) && b in fs.owner
    ensures fs.owner[b].k in AllSlots() && fs.owner[b].ino in fs.inodes
  {
    assert OwnerOk(fs, b);
  }

  lemma TruncatedRef(fs: Fs, ino: nat, t: Slot)
    requires Owned(fs) && ino in fs.inodes
    ensures Shape(Truncated(fs, ino)) && Ref(Truncated(fs, ino), t) == if t.ino == ino then 0 else Ref(fs, t)
  {
  }

  lemma TruncatedKeeps(fs: Fs, ino: nat)
    requires Owned(fs) && ino in fs.inodes
    ensures Owned(Truncated(fs, ino))
  {
    hide Ref;
    var fs' := Truncated(fs, ino);
    TruncatedRef(fs, ino, Slot(0, 0));
    forall c | 0 <= c < |fs'.used|
      ensures UsedOk(fs', c)
    {
      assert UsedOk(fs, c);
      if c in fs.owner {
        SlotsBelow(fs, c);
      }
    }
    forall c | c in fs'.owner
      ensures OwnerOk(fs', c)
    {
      assert OwnerOk(fs, c);
      TruncatedRef(fs, ino, fs'.owner[c]);
    }
    forall t
      ensures SlotOk(fs', t)
    {
      TruncatedRef(fs, ino, t);
      assert SlotOk(fs, t);
    }
  }

  /** Freeing what one more slot holds: a block in use, unless the slot is empty. */
  lemma DropOne(fs: Fs, ino: nat, ks: set<nat>, k: nat)
    requires Owned(fs) && k !in ks
    ensures |UsedWithout(fs, ino, ks)| == |fs.used|
    ensures var b := Ref(fs, Slot(ino, k));
            if b == 0 then UsedWithout(fs, ino, ks + {k}) == UsedWithout(fs, ino, ks)
            else b < |fs.used| && UsedWithout(fs, ino, ks)[b] && UsedWithout(fs, ino, ks + {k}) == UsedWithout(fs, ino, ks)[b := false]
  {
    var b := Ref(fs, Slot(ino, k));
    if b != 0 {
      RefUsed(fs, Slot(ino, k));
    }
    forall c | c in fs.owner && fs.owner[c] == Slot(ino, k)
      ensures c == b
    {
      assert OwnerOk(fs, c);
    }
    var a, z := UsedWithout(fs, ino, ks), UsedWithout(fs, ino, ks + {k});
    forall c | 0 <= c < |fs.used|
      ensures z[c] == (a[c] && !(b != 0 && c == b))
    {
      assert Drops(fs, ino, ks + {k}, c) <==> Drops(fs, ino, ks, c) || (c in fs.owner && fs.owner[c] == Slot(ino, k));
    }
  }

  // Allocation.

  /** The lowest free block from i on, or the number of blocks. */
  function FirstFree(used: seq<bool>, i: nat): (b: nat)
    requires i <= |used|
    ensures i <= b <= |used| && (b < |used| ==> !used[b]) && forall c :: i <= c < b ==> used[c]
    decreases |used| - i
  {
    if i == |used| || !used[i] then i else FirstFree(used, i + 1)
  }

  function Free(fs: Fs): nat {
    FirstFree(fs.used, 0)
  }

  /** A new block for an empty slot, if there is one. */
  ghost function Alloc(fs: Fs, slot: Slot): Fs
    requires Owned(fs) && slot.ino in fs.inodes && slot.k < SLOTS && Ref(fs, slot) == 0
    requires slot.k > INDIRECT ==> Ref(fs, Slot(slot.ino, INDIRECT)) != 0
  {
    IndirectBlock(fs, slot.ino);
    if Free(fs) == |fs.used| then fs else Given(fs, Free(fs), slot)
  }

  /** s' has every block number that s has, and no others but in the slots given. */
  ghost predicate Extends(fs: Fs, fs': Fs, a: Slot, b: Slot) {
    && Shape(fs) && Shape(fs')
    && (forall t :: Ref(fs, t) != 0 || (t != a && t != b) ==> Ref(fs', t) == Ref(fs, t))
  }

  /** The blocks in use, apart from one, keep their contents. */
  ghost predicate Preserves(fs: Fs, fs': Fs, table: nat) {
    && |fs.used| == |fs.blocks| == |fs'.blocks|
    && forall c :: 0 <= c < |fs.used| && fs.used[c] && c != table ==> fs'.blocks[c] == fs.blocks[c]
  }

  /** Only the addrs of ino change in the inodes. */
  ghost predicate SameFiles(fs: Fs, fs': Fs, ino: nat) {
    && fs'.dataStart == fs.dataStart && |fs'.used| == |fs.used|
    && fs'.inodes.Keys == fs.inodes.Keys && ino in fs.inodes
    && (forall i :: i in fs.inodes ==> fs'.inodes[i].size == fs.inodes[i].size)
    && (forall i :: i in fs.inodes && i != ino ==> fs'.inodes[i] == fs.inodes[i])
  }

  lemma FreeIsData(fs: Fs)
    requires Owned(fs) && Free(fs) < |fs.used|
    ensures IsData(fs, Free(fs)) && !fs.used[Free(fs)]
  {
    assert UsedOk(fs, Free(fs));
  }

  lemma AllocFacts(fs: Fs, slot: Slot)
    requires Owned(fs) && slot.ino in fs.inodes && slot.k < SLOTS && Ref(fs, slot) == 0
    requires slot.k > INDIRECT ==> Ref(fs, Slot(slot.ino, INDIRECT)) != 0
    ensures var fs' := Alloc(fs, slot);
            && Owned(fs') && Extends(fs, fs', slot, slot) && SameFiles(fs, fs', slot.ino)
            && Preserves(fs, fs', if slot.k > INDIRECT then Ref(fs, Slot(slot.ino, INDIRECT)) else |fs.used|)
            && Ref(fs', slot) == (if Free(fs) == |fs.used| then 0 else Free(fs))
            && (Ref(fs', slot) == 0 <==> Free(fs) == |fs.used|)
            && (Ref(fs', slot) == 0 ==> fs' == fs)
            && (Ref(fs', slot) != 0 ==> IsData(fs, Ref(fs', slot)) && !fs.used[Ref(fs', slot)])
            && (forall c :: 0 <= c < |fs.used| && fs.used[c] ==> fs'.used[c])
            && (Ref(fs', slot) != 0 && slot.k != INDIRECT ==> fs'.blocks[Ref(fs', slot)] == ZeroBlock())
  {
    var fs' := Alloc(fs, slot);
    IndirectBlock(fs, slot.ino);
    if Free(fs) < |fs.used| {
      FreeIsData(fs);
      GivenKeeps(fs, Free(fs), slot);
      forall t
        ensures Ref(fs', t) == if t == slot then Free(fs) else Ref(fs, t)
      {
        GivenRef(fs, Free(fs), slot, t);
      }
      AllocBlocks(fs, slot);
    }
  }

  lemma AllocBlocks(fs: Fs, slot: Slot)
    requires Owned(fs) && slot.ino in fs.inodes && slot.k < SLOTS && Ref(fs, slot) == 0 && Free(fs) < |fs.used|
    requires slot.k > INDIRECT ==> Ref(fs, Slot(slot.ino, INDIRECT)) != 0
    ensures var fs' := Alloc(fs, slot);
            && Preserves(fs, fs', if slot.k > INDIRECT then Ref(fs, Slot(slot.ino, INDIRECT)) else |fs.used|)
            && fs'.blocks[Free(fs)] == ZeroBlock()
  {
    hide PutWord, ZeroBlock;
    IndirectBlock(fs, slot.ino);
    FreeIsData(fs);
  }

  /** bmap: the indirect block is allocated first, and stays even if there is no block left for the entry. */
  ghost function Bmapped(fs: Fs, ino: nat, bn: nat): Fs
    requires Owned(fs) && ino in fs.inodes && bn < MAXFILE
  {
    var t, p := SlotOf(ino, bn), Slot(ino, INDIRECT);
    if Ref(fs, t) != 0 then fs
    else if bn < NDIRECT then Alloc(fs, t)
    else if Ref(fs, p) != 0 then Alloc(fs, t)
    else
      AllocFacts(fs, p);
      var fs1 := Alloc(fs, p);
      if Ref(fs1, p) == 0 then fs1 else Alloc(fs1, t)
  }

  /** What bmap keeps and what it adds. */
  lemma BmapFacts(fs: Fs, ino: nat, bn: nat)
    requires Owned(fs) && ino in fs.inodes && bn < MAXFILE
    ensures var fs', t, p := Bmapped(fs, ino, bn), SlotOf(ino, bn), Slot(ino, INDIRECT);
            && Owned(fs') && Extends(fs, fs', t, p) && SameFiles(fs, fs', ino)
            && Preserves(fs, fs', if Ref(fs, p) != 0 then Ref(fs, p) else |fs.used|)
            && (Ref(fs, t) != 0 ==> fs' == fs)
            && (Ref(fs, t) == 0 && Ref(fs', t) != 0 ==> fs'.blocks[Ref(fs', t)] == ZeroBlock())
            && (Ref(fs', t) == 0 ==> Free(fs') == |fs'.used|)
            && (Ref(fs, t) == 0 && Ref(fs', t) != 0 ==> IsData(fs, Ref(fs', t)) && !fs.used[Ref(fs', t)])
  {
    hide Alloc, Ref, Owned, Free, ZeroBlock;
    var t, p := SlotOf(ino, bn), Slot(ino, INDIRECT);
    OwnedShape(fs);
    if Ref(fs, t) == 0 {
      if bn < NDIRECT || Ref(fs, p) != 0 {
        AllocFacts(fs, t);
      } else {
        AllocFacts(fs, p);
        var fs1 := Alloc(fs, p);
        if Ref(fs1, p) != 0 {
          AllocFacts(fs1, t);
        }
      }
    }
  }

  lemma OwnedShape(fs: Fs)
    requires Owned(fs)
    ensures Shape(fs)
  {
  }

  /** Bits per bitmap block. */
  const BPB: nat := 8192

  /**
   The superblock's layout, the bitmap and the inodes. The ghost fields tell what the operation in progress has passed to
   log_write since begin_op: bits the bitmap blocks, others the rest; allocs counts its successful calls of balloc.
   */
  class Disk {
    const dataStart: nat
    const bmapStart: nat
    var used: seq<bool>
    var blocks: seq<Block>
    var inodes: map<nat, Inode>
    ghost var owner: map<nat, Slot>
    ghost var bits: set<nat>
    ghost var others: set<nat>
    ghost var allocs: nat

    ghost function State(): Fs
      reads this
    {
      Fs(dataStart, used, blocks, inodes, owner)
    }

    constructor (fs: Fs, bmapStart: nat)
      ensures State() == fs && this.bmapStart == bmapStart && bits == {} && others == {} && allocs == 0
    {
      this.dataStart, this.bmapStart := fs.dataStart, bmapStart;
      used, blocks, inodes, owner := fs.used, fs.blocks, fs.inodes, fs.owner;
      bits, others, allocs := {}, {}, 0;
    }

    /** How many data blocks are free. */
    ghost function Left(): nat
      reads this
    {
      |FreeOf(dataStart, used)|
    }

    /** The bitmap block with the bit of block b. */
    function BBlock(b: nat): nat
    {
      b / BPB + bmapStart
    }

    /** No more bitmap blocks are logged than blocks were allocated, nor than there are. */
    ghost predicate BitsOk()
      reads this
    {
      |bits| <= allocs && forall x :: x in bits ==> bmapStart <= x && (x - bmapStart) * BPB < |used|
    }

    /** begin_op: nothing is logged yet. */
    method BeginOp()
      modifies this`bits, this`others, this`allocs
      ensures bits == {} && others == {} && allocs == 0
    {
      bits, others, allocs := {}, {}, 0;
    }

    /** balloc: the lowest free block, zeroed, or 0. */
    method Balloc() returns (r: nat)
      requires Owned(State()) && BitsOk()
      modifies this`used, this`blocks, this`bits, this`others, this`allocs
      ensures Free(old(State())) == |old(used)| ==> r == 0 && used == old(used) && blocks == old(blocks)
      ensures Free(old(State())) == |old(used)| ==> bits == old(bits) && others == old(others) && allocs == old(allocs)
      ensures Free(old(State())) < |old(used)| ==>
                && r == Free(old(State())) && r > 0
                && used == old(used)[r := true] && blocks == old(blocks)[r := ZeroBlock()]
                && bits == old(bits) + {BBlock(r)} && others == old(others) + {r} && allocs == old(allocs) + 1
      ensures BitsOk() && Left() + allocs == old(Left() + allocs)
    {
      var b := 0;
      while b < |used|
        invariant 0 <= b && b % BPB == 0
        invariant forall c :: 0 <= c < b && c < |used| ==> used[c]
      {
        var bi := 0;
        while bi < BPB && b + bi < |used|
          invariant 0 <= bi <= BPB && b % BPB == 0
          invariant forall c :: 0 <= c < b + bi && c < |used| ==> used[c]
        {
          if !used[b + bi] {
            r := b + bi;
            assert Free(State()) == r && UsedOk(State(), r);
            ghost var x := BBlock(r);
            assert (x - bmapStart) * BPB <= r;
            OneTaken(dataStart, used, r);
            bits, others, allocs := bits + {x}, others + {r}, allocs + 1;
            used := used[r := true];
            blocks := blocks[r := ZeroBlock()];
            return;
          }
          bi := bi + 1;
        }
        b := b + BPB;
      }
      return 0;
    }

    /** bfree, past its panic. */
    method Bfree(b: nat)
      requires b < |used| && used[b]
      modifies this`used, this`bits
      ensures used == old(used)[b := false] && bits == old(bits) + {BBlock(b)}
    {
      bits := bits + {BBlock(b)};
      used := used[b := false];
    }

    /** The slot gets a new block, if there is one. */
    method AllocDirect(ino: nat, k: nat) returns (addr: nat)
      requires Owned(State()) && BitsOk() && ino in inodes && k <= INDIRECT && inodes[ino].addrs[k] == 0
      modifies this
      ensures State() == Alloc(old(State()), Slot(ino, k)) && BitsOk() && Left() + allocs == old(Left() + allocs)
      ensures ino in inodes && |inodes[ino].addrs| == NDIRECT + 1 && addr == inodes[ino].addrs[k]
      ensures allocs == old(allocs) + (if addr == 0 then 0 else 1)
      ensures others == old(others) + (if addr == 0 then {} else {addr})
    {
      hide ZeroBlock, FreeOf;
      addr := Balloc();
      if addr == 0 {
        return;
      }
      var ip := inodes[ino];
      inodes := inodes[ino := ip.(addrs := ip.addrs[k := addr])];
      owner := owner[addr := Slot(ino, k)];
    }

    /** The block number of the bn-th block of the file, allocated if need be; 0 if the disk is full. */
    method Bmap(ino: nat, bn: nat) returns (addr: nat)
      requires Owned(State()) && BitsOk() && ino in inodes && bn < MAXFILE
      modifies this
      ensures Owned(State()) && BitsOk() && Left() + allocs == old(Left() + allocs)
      ensures State() == Bmapped(old(State()), ino, bn)
      ensures addr == Ref(State(), SlotOf(ino, bn))
      ensures others <= old(others) + ({addr, Ref(State(), Slot(ino, INDIRECT))} - {0})
      ensures Ref(old(State()), SlotOf(ino, bn)) != 0 ==> others == old(others) && bits == old(bits) && allocs == old(allocs)
      ensures allocs <= old(allocs) + (if Ref(old(State()), SlotOf(ino, bn)) == 0 then 1 else 0)
                                    + (if Ref(old(State()), Slot(ino, INDIRECT)) == 0 != Ref(State(), Slot(ino, INDIRECT)) then 1 else 0)
    {
      hide Owned, Alloc, FreeOf;
      OwnedShape(State());
      BmapFacts(State(), ino, bn);
      if bn < NDIRECT {
        addr := inodes[ino].addrs[bn];
        if addr == 0 {
          AllocFacts(State(), SlotOf(ino, bn));
          addr := AllocDirect(ino, bn);
        }
        return;
      }
      addr := inodes[ino].addrs[INDIRECT];
      if addr == 0 {
        AllocFacts(State(), Slot(ino, INDIRECT));
        addr := AllocDirect(ino, INDIRECT);
        if addr == 0 {
          return;
        }
      }
      addr := BmapEntry(ino, bn, addr);
    }

    /** bmap's last part: the entry of the indirect block at p. */
    method BmapEntry(ino: nat, bn: nat, p: nat) returns (addr: nat)
      requires Owned(State()) && BitsOk() && ino in inodes && NDIRECT <= bn < MAXFILE
      requires p != 0 && p == Ref(State(), Slot(ino, INDIRECT))
      modifies this
      ensures Owned(State()) && BitsOk() && Left() + allocs == old(Left() + allocs)
      ensures var t := SlotOf(ino, bn);
              State() == if Ref(old(State()), t) != 0 then old(State()) else Alloc(old(State()), t)
      ensures addr == Ref(State(), SlotOf(ino, bn)) && p == Ref(State(), Slot(ino, INDIRECT))
      ensures others <= old(others) + ({addr, p} - {0})
      ensures Ref(old(State()), SlotOf(ino, bn)) != 0 ==> others == old(others) && bits == old(bits) && allocs == old(allocs)
      ensures allocs <= old(allocs) + (if Ref(old(State()), SlotOf(ino, bn)) == 0 then 1 else 0)
    {
      hide Word, PutWord, ZeroBlock, FreeOf;
      ghost var t := SlotOf(ino, bn);
      IndirectBlock(State(), ino);
      addr := Word(blocks[p], bn - NDIRECT);
      if addr == 0 {
        AllocFacts(State(), t);
        addr := Balloc();
        if addr != 0 {
          blocks := blocks[p := PutWord(blocks[p], bn - NDIRECT, addr)];
          owner := owner[addr := t];
          others := others + {p};
        }
      }
    }

    /** itrunc: every block of the file is freed, once each; bfree never finds a free block to free. */
    method Itrunc(ino: nat)
      requires Owned(State()) && ino in inodes
      modifies this
      ensures State() == Truncated(old(State()), ino) && Owned(State())
    {
      hide Owned;
      ghost var fs := State();
      OwnedShape(fs);
      DropDirect(ino);
      DropEntries(ino, fs);
      inodes := inodes[ino := Inode(inodes[ino].addrs, 0)];
      owner := map b | b in owner && owner[b].ino != ino :: owner[b];
      TruncatedKeeps(fs, ino);
      assert inodes[ino].addrs == seq(NDIRECT + 1, _ => 0);
    }

    /** The first loop. */
    method DropDirect(ino: nat)
      requires Owned(State()) && ino in inodes
      modifies this`used, this`inodes, this`bits
      ensures used == UsedWithout(old(State()), ino, Below(NDIRECT)) && |old(inodes)[ino].addrs| == NDIRECT + 1
      ensures inodes == old(inodes)[ino := old(inodes)[ino].(addrs := Cleared(old(inodes)[ino].addrs, NDIRECT))]
    {
      ghost var fs := State();
      assert Below(0) == {} && UsedWithout(fs, ino, {}) == used;
      assert Cleared(inodes[ino].addrs, 0) == inodes[ino].addrs;
      var i := 0;
      while i < NDIRECT
        invariant 0 <= i <= NDIRECT
        invariant used == UsedWithout(fs, ino, Below(i))
        invariant inodes == fs.inodes[ino := fs.inodes[ino].(addrs := Cleared(fs.inodes[ino].addrs, i))]
      {
        DropOne(fs, ino, Below(i), i);
        assert Below(i) + {i} == Below(i + 1);
        var ip := inodes[ino];
        assert ip.addrs == Cleared(fs.inodes[ino].addrs, i);
        assert ip.addrs[i] == 0 ==> ip.addrs[i := 0] == ip.addrs;
        if ip.addrs[i] != 0 {
          Bfree(ip.addrs[i]);
          inodes := inodes[ino := ip.(addrs := ip.addrs[i := 0])];
        }
        assert Cleared(fs.inodes[ino].addrs, i + 1) == Cleared(fs.inodes[ino].addrs, i)[i := 0];
        i := i + 1;
      }
    }

    /** The indirect block: its entries, then itself. */
    method DropEntries(ino: nat, ghost fs: Fs)
      requires Owned(fs) && ino in fs.inodes && |fs.inodes[ino].addrs| == NDIRECT + 1 && blocks == fs.blocks
      requires used == UsedWithout(fs, ino, Below(NDIRECT))
      requires inodes == fs.inodes[ino := fs.inodes[ino].(addrs := Cleared(fs.inodes[ino].addrs, NDIRECT))]
      modifies this`used, this`inodes, this`bits
      ensures used == UsedWithout(fs, ino, AllSlots())
      ensures inodes == fs.inodes[ino := fs.inodes[ino].(addrs := seq(NDIRECT + 1, _ => 0))]
    {
      hide Owned, Word, UsedWithout;
      var ip := inodes[ino];
      var p := ip.addrs[INDIRECT];
      if p != 0 {
        DropTable(ino, fs, p);
        inodes := inodes[ino := ip.(addrs := ip.addrs[INDIRECT := 0])];
        assert ip.addrs[INDIRECT := 0] == seq(NDIRECT + 1, _ => 0);
      } else {
        DropNone(fs, ino);
        assert ip.addrs == seq(NDIRECT + 1, _ => 0);
      }
    }

    method DropTable(ino: nat, ghost fs: Fs, p: nat)
      requires Owned(fs) && ino in fs.inodes && blocks == fs.blocks && p == fs.inodes[ino].addrs[INDIRECT] != 0
      requires used == UsedWithout(fs, ino, Below(NDIRECT))
      modifies this`used, this`bits
      ensures used == UsedWithout(fs, ino, AllSlots())
    {
      hide Word, UsedWithout;
      IndirectBlock(fs, ino);
      ghost var ks := Below(NDIRECT);
      assert Entries(0) == {} && ks + {} == ks;
      var j := 0;
      while j < NINDIRECT
        invariant 0 <= j <= NINDIRECT
        invariant used == UsedWithout(fs, ino, ks + Entries(j))
      {
        DropOne(fs, ino, ks + Entries(j), 13 + j);
        assert ks + Entries(j) + {13 + j} == ks + Entries(j + 1);
        var a := Word(blocks[p], j);
        if a != 0 {
          Bfree(a);
        }
        j := j + 1;
      }
      DropOne(fs, ino, ks + Entries(NINDIRECT), INDIRECT);
      assert ks + Entries(NINDIRECT) + {INDIRECT} == AllSlots();
      Bfree(p);
    }
  }

  /** The first n entries of the indirect block. */
  function Entries(n: nat): set<nat> {
    set k: nat | k < 13 + n && IsEntry(k)
  }

  predicate IsEntry(k: nat) {
    13 <= k
  }

  function Cleared(addrs: seq<nat>, n: nat): seq<nat>
    requires n <= |addrs|
  {
    seq(|addrs|, k requires 0 <= k < |addrs| => if k < n then 0 else addrs[k])
  }

  /** A file without an indirect block has all its blocks in direct slots. */
  lemma DropNone(fs: Fs, ino: nat)
    requires Owned(fs) && ino in fs.inodes && fs.inodes[ino].addrs[INDIRECT] == 0
    ensures UsedWithout(fs, ino, Below(NDIRECT)) == UsedWithout(fs, ino, AllSlots())
  {
    forall b | b in fs.owner && fs.owner[b].ino == ino
      ensures fs.owner[b].k < NDIRECT
    {
      assert OwnerOk(fs, b);
    }
  }

  // Conservation.

  /** The data blocks that are free. */
  function FreeBlocks(fs: Fs): set<nat> {
    FreeOf(fs.dataStart, fs.used)
  }

  function FreeOf(dataStart: nat, used: seq<bool>): set<nat> {
    set b: nat | b < |used| && dataStart <= b && !used[b]
  }

  lemma OneTaken(dataStart: nat, used: seq<bool>, b: nat)
    requires dataStart <= b < |used| && !used[b]
    ensures |FreeOf(dataStart, used[b := true])| == |FreeOf(dataStart, used)| - 1
  {
    assert FreeOf(dataStart, used) == FreeOf(dataStart, used[b := true]) + {b};
  }

  ghost predicate Unreferenced(fs: Fs, b: nat)
    requires Shape(fs)
  {
    forall slot :: Ref(fs, slot) != b
  }

  /** Every data block is either free or in exactly one slot: the free ones and the owned ones make up the disk. */
  lemma BlocksConserved(fs: Fs)
    requires Owned(fs)
    ensures |FreeBlocks(fs)| + |fs.owner| == |fs.used| - fs.dataStart
    ensures forall b: nat :: IsData(fs, b) ==> (!fs.used[b] <==> Unreferenced(fs, b))
  {
    hide Ref, Unreferenced;
    FreeOrOwned(fs);
    DataCount(fs, |fs.used|);
    forall b: nat | IsData(fs, b)
      ensures !fs.used[b] <==> Unreferenced(fs, b)
    {
      FreeUnreferenced(fs, b);
    }
  }

  lemma FreeOrOwned(fs: Fs)
    requires Owned(fs)
    ensures FreeBlocks(fs) + fs.owner.Keys == DataBelow(fs, |fs.used|) && FreeBlocks(fs) !! fs.owner.Keys
  {
    hide Ref;
    forall b | b in DataBelow(fs, |fs.used|)
      ensures b in FreeBlocks(fs) <==> b !in fs.owner.Keys
    {
      assert UsedOk(fs, b);
    }
    forall b | b in fs.owner.Keys
      ensures b in DataBelow(fs, |fs.used|)
    {
      assert OwnerOk(fs, b);
    }
  }

  lemma FreeUnreferenced(fs: Fs, b: nat)
    requires Owned(fs) && IsData(fs, b)
    ensures !fs.used[b] <==> Unreferenced(fs, b)
  {
    hide Ref;
    assert UsedOk(fs, b);
    if fs.used[b] {
      assert OwnerOk(fs, b);
      assert Ref(fs, fs.owner[b]) == b;
    } else {
      forall slot
        ensures Ref(fs, slot) != b
      {
        assert SlotOk(fs, slot);
      }
    }
  }

  function DataBelow(fs: Fs, n: nat): set<nat> {
    set b: nat | b < n && fs.dataStart <= b && Under(b, n)
  }

  lemma {:induction false} DataCount(fs: Fs, n: nat)
    requires fs.dataStart <= n
    ensures |DataBelow(fs, n)| == n - fs.dataStart
  {
    if n == fs.dataStart {
      assert DataBelow(fs, n) == {};
    } else {
      DataCount(fs, n - 1);
      assert DataBelow(fs, n) == DataBelow(fs, n - 1) + {n - 1};
    }
  }
}

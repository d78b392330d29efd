/**
 User memory with copy-on-write fork: kernel/kalloc.c and the user half of kernel/vm.c. The two main
 results are that frames are conserved with exact reference counts on every path, and that processes
 cannot tell lazily shared memory from memory that fork copies at once.
 */
module CowMemory {
  import opened Collections

  const PGSIZE: nat := 4096
  const MAXVA: nat := 0x40_0000_0000

  type Pid = nat
  type Frame = nat

  /** A user page of a process: its page number is the virtual address divided by PGSIZE. */
  datatype Key = Key(pid: Pid, page: nat)

  datatype Page = Page(bytes: seq<int>)

  function Filled(b: int): Page {
    Page(seq(PGSIZE, _ => b))
  }

  /** A valid leaf PTE. */
  datatype Pte = Pte(frame: Frame, r: bool, w: bool, x: bool, u: bool, cow: bool)

  /** A page-table page of a process, by the part of the page number that selects it. */
  datatype Table = Root(pid: Pid) | Mid(pid: Pid, i: nat) | Low(pid: Pid, i: nat)

  /**
   The allocator and all user page tables. kernel is the set of frames that kernel code holds by pointer:
   page-table pages, and pages obtained from kalloc and not (or never) mapped for a user.
   */
  datatype Mem = Mem(
    freelist: seq<Frame>,
    count: map<Frame, nat>,
    frames: map<Frame, Page>,
    leaf: map<Key, Pte>,
    tables: map<Table, Frame>,
    kernel: set<Frame>
  )

  // Conservation.

  function RefsTo(leaf: map<Key, Pte>, f: Frame): set<Key> {
    set k | k in leaf && leaf[k].frame == f
  }

  /** The free list holds allocatable frames, each once. */
  ghost predicate FreeOk(m: Mem) {
    && (forall f :: f in m.freelist ==> f in m.frames)
    && Distinct(m.freelist)
  }

  /** The frames that kernel code holds, but not as page tables. */
  ghost function Loose(m: Mem): set<Frame> {
    m.kernel - m.tables.Values
  }

  ghost predicate Held(m: Mem, f: Frame) {
    f in Loose(m)
  }

  ghost predicate KernelOk(m: Mem) {
    && (forall f :: f in m.kernel ==> f in m.frames)
    && (forall t :: t in m.tables ==> m.tables[t] in m.kernel)
    && Injective(m.tables)
  }

  /**
   Where a frame is: free, or held by the kernel, with COW count 0; or mapped, by exactly count + 1 leaf PTEs.
   */
  ghost predicate FrameOk(m: Mem, f: Frame) {
    && f in m.count
    && if RefsTo(m.leaf, f) == {}
       then m.count[f] == 0 && (f in m.freelist <==> f !in m.kernel)
       else |RefsTo(m.leaf, f)| == m.count[f] + 1 && f !in m.freelist && f !in m.kernel
  }

  ghost predicate LeafOk(m: Mem) {
    forall k :: k in m.leaf ==> m.leaf[k].frame in m.frames
  }

  /** A mapping that can be written through, or is not marked COW, is its frame's only mapping. */
  ghost predicate SharedIsCow(m: Mem) {
    forall k :: k in m.leaf && (m.leaf[k].w || !m.leaf[k].cow) ==> RefsTo(m.leaf, m.leaf[k].frame) == {k}
  }

  /** Frame conservation, and the sharing discipline that makes sharing invisible. */
  ghost predicate Inv(m: Mem) {
    && FreeOk(m)
    && KernelOk(m)
    && LeafOk(m)
    && (forall f :: f in m.frames ==> FrameOk(m, f))
    && SharedIsCow(m)
  }

  /** The frames behind user pages, those shared by several counted once. */
  function MappedFrames(leaf: map<Key, Pte>): set<Frame> {
    set k | k in leaf :: leaf[k].frame
  }

  /** Every frame is accounted for: free, a page table, otherwise held by the kernel, or mapped. */
  lemma FramesCounted(m: Mem)
    requires Inv(m)
    ensures |m.freelist| + |m.tables.Keys| + |Loose(m)| + |MappedFrames(m.leaf)| == |m.frames.Keys|
  {
    hide Inv, FreeOk, KernelOk, Loose, MappedFrames;
    InvParts(m);
    DistinctSize(m.freelist);
    KernelPart(m);
    FramesPart(m, Elems(m.freelist));
  }

  lemma InvParts(m: Mem)
    requires Inv(m)
    ensures FreeOk(m) && KernelOk(m)
  {
  }

  lemma KernelPart(m: Mem)
    requires KernelOk(m)
    ensures |m.kernel| == |m.tables.Keys| + |Loose(m)|
  {
    ValuesSize(m.tables);
    PartSize(m.kernel, m.tables.Values);
  }

  /** A frame that kernel code holds, and not as a page table, is in no other place. */
  lemma HeldFrame(m: Mem, f: Frame)
    requires Inv(m) && Held(m, f)
    ensures f in m.frames && f in m.kernel && f !in m.freelist && f !in MappedFrames(m.leaf)
    ensures f in m.count && m.count[f] == 0
  {
    hide SharedIsCow;
    WhereFrame(m, f);
    MappedMeans(m.leaf, f);
    assert FrameOk(m, f);
  }

  lemma FramesPart(m: Mem, free: set<Frame>)
    requires Inv(m) && free == Elems(m.freelist)
    ensures |m.frames.Keys| == |free| + |m.kernel| + |MappedFrames(m.leaf)|
  {
    hide Inv, MappedFrames;
    forall f
      ensures f in m.frames.Keys <==> f in free + m.kernel + MappedFrames(m.leaf)
      ensures !(f in free && f in m.kernel) && !(f in MappedFrames(m.leaf) && f in free + m.kernel)
    {
      WhereFrame(m, f);
    }
    assert m.frames.Keys == free + m.kernel + MappedFrames(m.leaf);
    assert free !! m.kernel && (free + m.kernel) !! MappedFrames(m.leaf);
  }

  lemma WhereFrame(m: Mem, f: Frame)
    requires Inv(m)
    ensures f in m.frames <==> f in m.freelist || f in m.kernel || f in MappedFrames(m.leaf)
    ensures !(f in m.freelist && f in m.kernel) && !(f in MappedFrames(m.leaf) && (f in m.freelist || f in m.kernel))
  {
    MappedMeans(m.leaf, f);
    assert f in m.frames ==> FrameOk(m, f);
  }

  lemma MappedMeans(leaf: map<Key, Pte>, f: Frame)
    ensures f in MappedFrames(leaf) <==> RefsTo(leaf, f) != {}
  {
    if k :| k in leaf && leaf[k].frame == f {
      assert k in RefsTo(leaf, f) && leaf[k].frame in MappedFrames(leaf);
    }
  }

  /** What each process sees at each of its pages. */
  function View(m: Mem): map<Key, Page>
    requires LeafOk(m)
  {
    map k | k in m.leaf :: m.frames[m.leaf[k].frame]
  }

  // What the allocator does to the state.

  ghost function Popped(m: Mem): Mem
    requires m.freelist != []
  {
    var f := m.freelist[0];
    m.(freelist := m.freelist[1..], count := m.count[f := 0], frames := m.frames[f := Filled(5)], kernel := m.kernel + {f})
  }

  ghost function Freed(m: Mem, f: Frame): Mem
    requires f in m.count
  {
    if m.count[f] > 0 then m.(count := m.count[f := m.count[f] - 1])
    else m.(freelist := [f] + m.freelist, frames := m.frames[f := Filled(1)], kernel := m.kernel - {f})
  }

  lemma MappedFrame(m: Mem, k: Key)
    requires Inv(m) && k in m.leaf
    ensures var f := m.leaf[k].frame;
            k in RefsTo(m.leaf, f) && f in m.frames && f !in m.freelist && f !in m.kernel && f in m.count
  {
    assert k in RefsTo(m.leaf, m.leaf[k].frame);
    assert FrameOk(m, m.leaf[k].frame);
  }

  lemma UnmappedFrame(m: Mem, f: Frame)
    requires Inv(m) && f in m.frames && (f in m.freelist || f in m.kernel)
    ensures RefsTo(m.leaf, f) == {} && m.count.Keys >= {f} && m.count[f] == 0
  {
    assert FrameOk(m, f);
  }

  /** Changing page k between frames other than g does not change g's mappings. */
  lemma RefsElsewhere(leaf: map<Key, Pte>, leaf': map<Key, Pte>, k: Key, g: Frame)
    requires SameExcept(leaf, leaf', k)
    requires k in leaf ==> leaf[k].frame != g
    requires k in leaf' ==> leaf'[k].frame != g
    ensures RefsTo(leaf', g) == RefsTo(leaf, g)
  {
  }

  ghost predicate SameExcept(leaf: map<Key, Pte>, leaf': map<Key, Pte>, k: Key) {
    forall q :: q != k ==> ((q in leaf <==> q in leaf') && (q in leaf ==> leaf[q] == leaf'[q]))
  }

  /** Changing page k, and frame f behind it, leaves every other frame where it was. */
  lemma FramesElsewhere(m: Mem, m': Mem, k: Key, f: Frame)
    requires forall g :: g in m.frames ==> FrameOk(m, g)
    requires SameExcept(m.leaf, m'.leaf, k) && m'.frames.Keys == m.frames.Keys
    requires k in m.leaf ==> m.leaf[k].frame == f
    requires k in m'.leaf ==> m'.leaf[k].frame == f
    requires forall g :: g != f ==> (g in m'.freelist <==> g in m.freelist) && (g in m'.kernel <==> g in m.kernel)
    requires forall g :: g != f && g in m.count ==> g in m'.count && m'.count[g] == m.count[g]
    ensures forall g :: g in m'.frames && g != f ==> FrameOk(m', g)
  {
    forall g | g in m'.frames && g != f
      ensures FrameOk(m', g)
    {
      assert FrameOk(m, g);
      RefsElsewhere(m.leaf, m'.leaf, k, g);
    }
  }

  lemma PopKeeps(m: Mem)
    requires Inv(m) && m.freelist != []
    ensures Inv(Popped(m)) && View(Popped(m)) == View(m)
  {
    var f := m.freelist[0];
    var m' := Popped(m);
    assert m.freelist == [f] + m'.freelist;
    UnmappedFrame(m, f);
    forall g | g in m'.frames
      ensures FrameOk(m', g)
    {
      assert FrameOk(m, g);
      assert g in m.freelist <==> g == f || g in m'.freelist;
    }
    PopView(m);
  }

  lemma PopView(m: Mem)
    requires Inv(m) && m.freelist != []
    ensures LeafOk(Popped(m)) && View(Popped(m)) == View(m)
  {
    forall k | k in m.leaf
      ensures m.leaf[k].frame != m.freelist[0]
    {
      MappedFrame(m, k);
    }
  }

  /** A frame held by the kernel, and not as a page table, goes back to the free list. */
  lemma FreeOwnedKeeps(m: Mem, f: Frame)
    requires Inv(m) && Held(m, f)
    ensures f in m.count && Freed(m, f) == m.(freelist := [f] + m.freelist, frames := m.frames[f := Filled(1)], kernel := m.kernel - {f})
    ensures Inv(Freed(m, f)) && View(Freed(m, f)) == View(m)
  {
    UnmappedFrame(m, f);
    assert FrameOk(m, f);
    var m' := Freed(m, f);
    forall g | g in m'.frames
      ensures FrameOk(m', g)
    {
      assert FrameOk(m, g);
    }
    forall k | k in m.leaf
      ensures m.leaf[k].frame != f
    {
      MappedFrame(m, k);
    }
  }

  ghost function Mapped(m: Mem, k: Key, pte: Pte): Mem {
    m.(leaf := m.leaf[k := pte], kernel := m.kernel - {pte.frame})
  }

  lemma MapFreshKeeps(m: Mem, k: Key, pte: Pte)
    requires Inv(m) && k !in m.leaf && Held(m, pte.frame)
    ensures Inv(Mapped(m, k, pte)) && View(Mapped(m, k, pte)) == View(m)[k := m.frames[pte.frame]]
  {
    var m' := Mapped(m, k, pte);
    UnmappedFrame(m, pte.frame);
    assert RefsTo(m'.leaf, pte.frame) == {k};
    assert FrameOk(m, pte.frame);
    FramesElsewhere(m, m', k, pte.frame);
    MapFreshSharing(m, k, pte);
    MapFreshView(m, k, pte);
  }

  lemma MapFreshView(m: Mem, k: Key, pte: Pte)
    requires LeafOk(m) && pte.frame in m.frames
    ensures LeafOk(Mapped(m, k, pte)) && View(Mapped(m, k, pte)) == View(m)[k := m.frames[pte.frame]]
  {
  }

  lemma MapFreshSharing(m: Mem, k: Key, pte: Pte)
    requires Inv(m) && k !in m.leaf && RefsTo(m.leaf, pte.frame) == {} && RefsTo(m.leaf[k := pte], pte.frame) == {k}
    ensures SharedIsCow(Mapped(m, k, pte))
  {
    var leaf' := m.leaf[k := pte];
    forall q | q in leaf' && (leaf'[q].w || !leaf'[q].cow)
      ensures RefsTo(leaf', leaf'[q].frame) == {q}
    {
      if q != k {
        MappedFrame(m, q);
        RefsElsewhere(m.leaf, leaf', k, m.leaf[q].frame);
      }
    }
  }

  /** Page k with other flags. */
  ghost function Flagged(m: Mem, k: Key, pte: Pte): Mem {
    m.(leaf := m.leaf[k := pte])
  }

  /** Flags may change as long as a shared page does not become writable or lose its COW mark. */
  lemma FlagKeeps(m: Mem, k: Key, pte: Pte)
    requires Inv(m) && k in m.leaf && pte.frame == m.leaf[k].frame
    requires pte.w || !pte.cow ==> m.leaf[k].w || !m.leaf[k].cow
    ensures Inv(Flagged(m, k, pte)) && View(Flagged(m, k, pte)) == View(m)
  {
    hide RefsTo, FreeOk, KernelOk;
    var m' := Flagged(m, k, pte);
    forall g
      ensures RefsTo(m'.leaf, g) == RefsTo(m.leaf, g)
    {
      FlagRefs(m.leaf, k, pte, g);
    }
    assert FreeOk(m') && KernelOk(m') by {
      FlagRest(m, k, pte);
    }
    forall g | g in m'.frames
      ensures FrameOk(m', g)
    {
      assert FrameOk(m, g);
    }
  }

  lemma FlagRefs(leaf: map<Key, Pte>, k: Key, pte: Pte, g: Frame)
    requires k in leaf && pte.frame == leaf[k].frame
    ensures RefsTo(leaf[k := pte], g) == RefsTo(leaf, g)
  {
  }

  lemma FlagRest(m: Mem, k: Key, pte: Pte)
    requires FreeOk(m) && KernelOk(m)
    ensures FreeOk(Flagged(m, k, pte)) && KernelOk(Flagged(m, k, pte))
  {
  }

  /** cowmappage's effect: map the frame of page k at page c too, and count the new mapping. */
  ghost function Shared(m: Mem, k: Key, c: Key): Mem
    requires k in m.leaf && m.leaf[k].frame in m.count
  {
    var f := m.leaf[k].frame;
    m.(leaf := m.leaf[c := m.leaf[k]], count := m.count[f := m.count[f] + 1])
  }

  lemma ShareKeeps(m: Mem, k: Key, c: Key)
    requires Inv(m) && k in m.leaf && c !in m.leaf && m.leaf[k].cow && !m.leaf[k].w
    ensures m.leaf[k].frame in m.count
    ensures Inv(Shared(m, k, c)) && View(Shared(m, k, c)) == View(m)[c := View(m)[k]]
  {
    var f := m.leaf[k].frame;
    MappedFrame(m, k);
    var m' := Shared(m, k, c);
    assert RefsTo(m'.leaf, f) == RefsTo(m.leaf, f) + {c};
    assert FrameOk(m, f);
    assert FrameOk(m', f);
    FramesElsewhere(m, m', c, f);
    ShareSharing(m, k, c);
    ShareView(m, k, c);
  }

  lemma ShareView(m: Mem, k: Key, c: Key)
    requires LeafOk(m) && k in m.leaf && m.leaf[k].frame in m.count
    ensures LeafOk(Shared(m, k, c)) && View(Shared(m, k, c)) == View(m)[c := View(m)[k]]
  {
  }

  lemma ShareSharing(m: Mem, k: Key, c: Key)
    requires Inv(m) && k in m.leaf && c !in m.leaf && m.leaf[k].cow && !m.leaf[k].w && m.leaf[k].frame in m.count
    ensures SharedIsCow(Shared(m, k, c))
  {
    var leaf' := m.leaf[c := m.leaf[k]];
    forall q | q in leaf' && (leaf'[q].w || !leaf'[q].cow)
      ensures RefsTo(leaf', leaf'[q].frame) == {q}
    {
      assert RefsTo(m.leaf, m.leaf[q].frame) == {q};
      assert k in RefsTo(m.leaf, m.leaf[k].frame);
      RefsElsewhere(m.leaf, leaf', c, m.leaf[q].frame);
    }
  }

  /** uvmunmap's effect on one page. */
  ghost function Unmapped(m: Mem, k: Key): Mem
    requires k in m.leaf && m.leaf[k].frame in m.count
  {
    Freed(m.(leaf := m.leaf - {k}), m.leaf[k].frame)
  }

  lemma UnmapKeeps(m: Mem, k: Key)
    requires Inv(m) && k in m.leaf
    ensures m.leaf[k].frame in m.count
    ensures Inv(Unmapped(m, k)) && View(Unmapped(m, k)) == View(m) - {k}
    ensures Unmapped(m, k).leaf == m.leaf - {k} && Unmapped(m, k).tables == m.tables && Unmapped(m, k).kernel == m.kernel
  {
    MappedFrame(m, k);
    UnmapFields(m, k);
    UnmapFrames(m, k);
    UnmapKeepsSharing(m, k);
    UnmapView(m, k);
  }

  lemma UnmapFrames(m: Mem, k: Key)
    requires Inv(m) && k in m.leaf && m.leaf[k].frame in m.count
    ensures forall g :: g in m.frames ==> FrameOk(Unmapped(m, k), g)
  {
    MappedFrame(m, k);
    UnmapFields(m, k);
    UnmapFrame(m, k);
    assert SameExcept(m.leaf, m.leaf - {k}, k);
    FramesElsewhere(m, Unmapped(m, k), k, m.leaf[k].frame);
  }

  lemma UnmapFrame(m: Mem, k: Key)
    requires k in m.leaf && m.leaf[k].frame in m.count && FrameOk(m, m.leaf[k].frame)
    ensures FrameOk(Unmapped(m, k), m.leaf[k].frame)
  {
    var f := m.leaf[k].frame;
    var refs, refs' := RefsTo(m.leaf, f), RefsTo(m.leaf - {k}, f);
    assert refs == refs' + {k};
    if m.count[f] > 0 {
      assert refs' != {};
    } else {
      assert refs' == {};
    }
  }

  lemma UnmapFields(m: Mem, k: Key)
    requires k in m.leaf && FreeOk(m) && m.leaf[k].frame in m.count && m.leaf[k].frame in m.frames
    requires m.leaf[k].frame !in m.kernel && m.leaf[k].frame !in m.freelist
    ensures var m' := Unmapped(m, k);
            && m'.leaf == m.leaf - {k} && m'.tables == m.tables && m'.kernel == m.kernel
            && m'.frames.Keys == m.frames.Keys && FreeOk(m')
            && forall g :: g != m.leaf[k].frame ==> (g in m'.freelist <==> g in m.freelist)
  {
  }

  lemma UnmapKeepsSharing(m: Mem, k: Key)
    requires Inv(m) && k in m.leaf && m.leaf[k].frame in m.count
    ensures SharedIsCow(Unmapped(m, k))
  {
    var m' := Unmapped(m, k);
    forall q | q in m'.leaf && (m'.leaf[q].w || !m'.leaf[q].cow)
      ensures RefsTo(m'.leaf, m'.leaf[q].frame) == {q}
    {
      assert RefsTo(m.leaf, m.leaf[q].frame) == {q};
    }
  }

  /** Junk-filling a frame as it is freed is invisible: nobody maps it. */
  lemma UnmapView(m: Mem, k: Key)
    requires Inv(m) && k in m.leaf && m.leaf[k].frame in m.count
    ensures LeafOk(Unmapped(m, k)) && View(Unmapped(m, k)) == View(m) - {k}
  {
    var f := m.leaf[k].frame;
    forall q | q in m.leaf && q != k
      ensures m.leaf[q].frame in m.frames
      ensures Unmapped(m, k).frames[m.leaf[q].frame] == m.frames[m.leaf[q].frame]
    {
      MappedFrame(m, q);
      if m.leaf[q].frame == f {
        CardinalityTwo(RefsTo(m.leaf, f), k, q);
        assert FrameOk(m, f) && m.count[f] > 0;
      }
    }
  }

  lemma CardinalityTwo<T>(s: set<T>, x: T, y: T)
    requires x in s && y in s && x != y
    ensures |s| >= 2
  {
    assert |s - {x}| == |s| - 1;
    assert y in s - {x};
  }

  /** dup_pg's effect once it has a new frame: copy, remap with full permissions, and drop the old mapping. */
  ghost function Privatised(m: Mem, k: Key, f: Frame): Mem
    requires k in m.leaf && m.leaf[k].frame in m.frames && m.leaf[k].frame in m.count
  {
    var src := m.leaf[k].frame;
    Freed(
      m.(frames := m.frames[f := m.frames[src]],
         leaf := m.leaf[k := Pte(f, true, true, true, true, false)],
         kernel := m.kernel - {f}),
      src)
  }

  lemma PrivatiseKeeps(m: Mem, k: Key, f: Frame)
    requires Inv(m) && k in m.leaf && Held(m, f)
    ensures m.leaf[k].frame in m.frames && m.leaf[k].frame in m.count
    ensures Inv(Privatised(m, k, f)) && View(Privatised(m, k, f)) == View(m)
  {
    // Unmapping page k and then mapping the copy there is the same thing in another order.
    MappedFrame(m, k);
    var src := m.leaf[k].frame;
    var m1 := m.(frames := m.frames[f := m.frames[src]]);
    var pte := Pte(f, true, true, true, true, false);
    CopyIntoOwned(m, f, m.frames[src]);
    RemapInstead(m, m1, k, f, src, pte);
    RemapKeeps(m1, k, pte);
  }

  lemma RemapKeeps(m: Mem, k: Key, pte: Pte)
    requires Inv(m) && k in m.leaf && Held(m, pte.frame)
    requires m.leaf[k].frame in m.frames && m.frames[pte.frame] == m.frames[m.leaf[k].frame]
    ensures m.leaf[k].frame in m.count
    ensures Inv(Mapped(Unmapped(m, k), k, pte)) && View(Mapped(Unmapped(m, k), k, pte)) == View(m)
  {
    MappedFrame(m, k);
    UnmapKeeps(m, k);
    var u := Unmapped(m, k);
    assert u.frames[pte.frame] == View(m)[k];
    PutBack(View(m), k);
    MapFreshKeeps(u, k, pte);
  }

  lemma PutBack<K, V>(v: map<K, V>, k: K)
    requires k in v
    ensures (v - {k})[k := v[k]] == v
  {
  }

  lemma RemapInstead(m: Mem, m1: Mem, k: Key, f: Frame, src: Frame, pte: Pte)
    requires k in m.leaf && m.leaf[k].frame == src && src in m.frames && src in m.count && f != src
    requires m1 == m.(frames := m.frames[f := m.frames[src]]) && pte == Pte(f, true, true, true, true, false)
    ensures Mapped(Unmapped(m1, k), k, pte) == Privatised(m, k, f)
    ensures Unmapped(m1, k).frames[f] == m.frames[src]
  {
    assert (m.leaf - {k})[k := pte] == m.leaf[k := pte];
    assert m.kernel - {src} - {f} == m.kernel - {f} - {src};
  }

  lemma CopyIntoOwned(m: Mem, f: Frame, page: Page)
    requires Inv(m) && f in m.kernel
    ensures Inv(m.(frames := m.frames[f := page])) && View(m.(frames := m.frames[f := page])) == View(m)
  {
    var m' := m.(frames := m.frames[f := page]);
    forall g | g in m'.frames
      ensures FrameOk(m', g)
    {
      assert FrameOk(m, g);
    }
    forall k | k in m.leaf
      ensures m.leaf[k].frame != f
    {
      MappedFrame(m, k);
    }
  }

  /** A store through a page that is writable or not COW. */
  ghost function Stored(m: Mem, k: Key, page: Page): Mem
    requires k in m.leaf
  {
    m.(frames := m.frames[m.leaf[k].frame := page])
  }

  lemma StoreKeeps(m: Mem, k: Key, page: Page)
    requires Inv(m) && k in m.leaf && (m.leaf[k].w || !m.leaf[k].cow)
    ensures Inv(Stored(m, k, page)) && View(Stored(m, k, page)) == View(m)[k := page]
  {
    var m' := Stored(m, k, page);
    forall g | g in m'.frames
      ensures FrameOk(m', g)
    {
      assert FrameOk(m, g);
    }
    forall q | q in m.leaf && q != k
      ensures m.leaf[q].frame != m.leaf[k].frame
    {
      MappedFrame(m, q);
    }
  }

  /** walk's effect when it uses a new frame as a page-table page. */
  lemma TableKeeps(m: Mem, t: Table, f: Frame)
    requires Inv(m) && Held(m, f) && t !in m.tables
    ensures var m' := m.(tables := m.tables[t := f]); Inv(m') && View(m') == View(m)
  {
    var m' := m.(tables := m.tables[t := f]);
    forall g | g in m'.frames
      ensures FrameOk(m', g)
    {
      assert FrameOk(m, g);
    }
  }

  /** freewalk's effect on one page-table page. */
  lemma FreeTableKeeps(m: Mem, t: Table)
    requires Inv(m) && t in m.tables
    ensures m.tables[t] in m.count
    ensures var m' := Freed(m.(tables := m.tables - {t}), m.tables[t]);
            Inv(m') && View(m') == View(m) && m'.leaf == m.leaf && m'.tables == m.tables - {t}
  {
    var f := m.tables[t];
    var m1 := m.(tables := m.tables - {t});
    assert Inv(m1) && View(m1) == View(m) by {
      forall g | g in m1.frames
        ensures FrameOk(m1, g)
      {
        assert FrameOk(m, g);
      }
    }
    FreeOwnedKeeps(m1, f);
  }

  // Bytes.

  /** page, whose first byte is at virtual address base, after writing bytes at va. */
  function Patch(page: Page, base: nat, va: nat, bytes: seq<int>): Page {
    Page(seq(|page.bytes|, i requires 0 <= i < |page.bytes| =>
      if va <= base + i < va + |bytes| then bytes[base + i - va] else page.bytes[i]))
  }

  /** What the processes see after process p writes bytes at va. */
  function Write(v: map<Key, Page>, p: Pid, va: nat, bytes: seq<int>): map<Key, Page> {
    map k | k in v :: if k.pid == p then Patch(v[k], k.page * PGSIZE, va, bytes) else v[k]
  }

  lemma WriteNothing(v: map<Key, Page>, p: Pid, va: nat)
    ensures Write(v, p, va, []) == v
  {
    forall k | k in v
      ensures Patch(v[k], k.page * PGSIZE, va, []) == v[k]
    {
      assert Patch(v[k], k.page * PGSIZE, va, []).bytes == v[k].bytes;
    }
  }

  lemma PatchTwice(page: Page, base: nat, va: nat, a: seq<int>, b: seq<int>)
    ensures Patch(Patch(page, base, va, a), base, va + |a|, b) == Patch(page, base, va, a + b)
  {
    var once := Patch(page, base, va, a);
    assert Patch(once, base, va + |a|, b).bytes == Patch(page, base, va, a + b).bytes;
  }

  lemma WriteTwice(v: map<Key, Page>, p: Pid, va: nat, a: seq<int>, b: seq<int>)
    ensures Write(Write(v, p, va, a), p, va + |a|, b) == Write(v, p, va, a + b)
  {
    forall k | k in v
      ensures Write(Write(v, p, va, a), p, va + |a|, b)[k] == Write(v, p, va, a + b)[k]
    {
      if k.pid == p {
        PatchTwice(v[k], k.page * PGSIZE, va, a, b);
      }
    }
  }

  ghost predicate WholePages(v: map<Key, Page>) {
    forall k :: k in v ==> |v[k].bytes| == PGSIZE
  }

  /** A write that stays inside one page changes that page only. */
  lemma WriteOnePage(v: map<Key, Page>, p: Pid, va: nat, bytes: seq<int>)
    requires WholePages(v) && Key(p, va / PGSIZE) in v && va % PGSIZE + |bytes| <= PGSIZE
    ensures var k := Key(p, va / PGSIZE);
            Write(v, p, va, bytes) == v[k := Patch(v[k], k.page * PGSIZE, va, bytes)]
  {
    var k := Key(p, va / PGSIZE);
    forall q | q in v && q.pid == p && q != k
      ensures Patch(v[q], q.page * PGSIZE, va, bytes) == v[q]
    {
      PageApart(q.page, va, |bytes|);
      assert Patch(v[q], q.page * PGSIZE, va, bytes).bytes == v[q].bytes;
    }
  }

  lemma PageApart(n: nat, va: nat, len: nat)
    requires n != va / PGSIZE && va % PGSIZE + len <= PGSIZE
    ensures (n + 1) * PGSIZE <= va || va + len <= n * PGSIZE
  {
  }
}

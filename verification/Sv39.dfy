/**
 Sv39 page tables: walk, mappages, uvmunmap and freewalk of kernel/vm.c, and the macros of kernel/riscv.h
 that they rest on. A page table is a tree of 512-entry pages in physical memory. The results say that it
 behaves as a flat map from virtual pages to PTEs.

 PTEs and physical addresses are 64-bit words. Virtual addresses are numbers, so that shifting right is
 division and masking with 2^n - 1 is the remainder by 2^n.
 */
module Sv39 {
  import opened Collections

  type Word = bv64

  const PGSIZE: nat := 0x1000
  const MAXVA: nat := 0x40_0000_0000
  const PTE_V: Word := 0x1
  const PTE_RWX: Word := 0xE

  /** A page-aligned physical address. */
  predicate Aligned(a: Word) {
    a & 0xFFF == 0
  }

  function PX(level: nat, va: nat): nat {
    if level == 2 then va / 0x4000_0000 % 512 else if level == 1 then va / 0x20_0000 % 512 else va / 0x1000 % 512
  }

  function PA2PTE(pa: Word): Word {
    (pa >> 12) << 10
  }

  function PTE2PA(pte: Word): Word {
    (pte >> 10) << 12
  }

  function PteFlags(pte: Word): Word {
    pte & 0x3FF
  }

  predicate V(pte: Word) {
    pte & PTE_V != 0
  }

  /** A valid PTE that points to a page table. */
  predicate Inner(pte: Word) {
    pte & PTE_RWX == 0
  }

  // Facts about the macros.

  /** Below MAXVA the three indices together determine the page. */
  lemma PxInjective(a: nat, b: nat)
    requires a < MAXVA && b < MAXVA
    ensures a / PGSIZE == b / PGSIZE <==> PX(2, a) == PX(2, b) && PX(1, a) == PX(1, b) && PX(0, a) == PX(0, b)
  {
    PxDigits(a);
    PxDigits(b);
  }

  lemma PxDigits(a: nat)
    requires a < MAXVA
    ensures a / PGSIZE == PX(2, a) * 0x4_0000 + PX(1, a) * 512 + PX(0, a)
    ensures PX(2, a) < 256 && PX(1, a) < 512 && PX(0, a) < 512
  {
    var page := a / 0x1000;
    Shifted(a);
    assert page == page / 512 * 512 + page % 512;
    assert page / 512 == page / 0x4_0000 * 512 + page / 512 % 512;
  }

  lemma Shifted(a: nat)
    requires a < MAXVA
    ensures a / 0x20_0000 == a / 0x1000 / 512 && a / 0x4000_0000 == a / 0x1000 / 0x4_0000 == a / 0x1000 / 512 / 512 < 256
  {
  }

  /** The address that the indices i, j, k select. */
  function VaOf(i: nat, j: nat, k: nat): nat {
    i * 0x4000_0000 + j * 0x20_0000 + k * 0x1000
  }

  /** Every triple of indices with i below 256 selects a page below MAXVA. */
  lemma PxSurjective(i: nat, j: nat, k: nat)
    requires i < 256 && j < 512 && k < 512
    ensures VaOf(i, j, k) < MAXVA
    ensures PX(2, VaOf(i, j, k)) == i && PX(1, VaOf(i, j, k)) == j && PX(0, VaOf(i, j, k)) == k
  {
    var va := VaOf(i, j, k);
    assert va / 0x4000_0000 == i;
    assert va / 0x20_0000 == i * 512 + j;
    assert va / 0x1000 == i * 0x4_0000 + j * 512 + k;
  }

  /** A PTE gives back its page under any flags, and its flags. */
  lemma PteRoundTrip(pa: Word, flags: Word)
    requires Aligned(pa) && flags < 0x400
    ensures PTE2PA(PA2PTE(pa) | flags) == pa
    ensures PteFlags(PA2PTE(pa) | flags) == flags
  {
  }

  lemma TablePte(pa: Word)
    requires Aligned(pa)
    ensures PTE2PA(PA2PTE(pa) | PTE_V) == pa && V(PA2PTE(pa) | PTE_V) && Inner(PA2PTE(pa) | PTE_V)
  {
  }

  // The tree.

  /** A 64-bit entry of a page-table page. */
  datatype Slot = Slot(page: Word, index: nat)

  /** A page-table page by its place: the root, the one at root entry i, the one at entry j of that. */
  datatype Place = Root | Mid(i: nat) | Low(i: nat, j: nat)

  /** Entries not in mem are zero. */
  function Read(mem: map<Slot, Word>, s: Slot): Word {
    if s in mem then mem[s] else 0
  }

  function Zeroed(mem: map<Slot, Word>, page: Word): map<Slot, Word> {
    map s | s in mem && s.page != page :: mem[s]
  }

  /** walk's descent, without allocation: the slot of the PTE for va. */
  function Lookup(mem: map<Slot, Word>, root: Word, va: nat): Option<Slot> {
    var e2 := Read(mem, Slot(root, PX(2, va)));
    if !V(e2) then None else
    var e1 := Read(mem, Slot(PTE2PA(e2), PX(1, va)));
    if !V(e1) then None else Some(Slot(PTE2PA(e1), PX(0, va)))
  }

  /** The flat map that the tree stands for: the PTE of each address, 0 if the tree has none. */
  function PteOf(mem: map<Slot, Word>, root: Word, va: nat): Word {
    var slot := Lookup(mem, root, va);
    if slot.None? then 0 else Read(mem, slot.value)
  }

  datatype Tree = Tree(mem: map<Slot, Word>, at: map<Place, Word>, free: seq<Word>)

  /** Entry idx of the page at parent points to the page at child, or is invalid if there is none. */
  ghost predicate EntryOk(t: Tree, parent: Place, child: Place, idx: nat)
    requires parent in t.at
  {
    var e := Read(t.mem, Slot(t.at[parent], idx));
    && (V(e) <==> child in t.at)
    && (child in t.at ==> PTE2PA(e) == t.at[child] && Inner(e))
  }

  predicate PlaceOk(p: Place) {
    match p
    case Root => true
    case Mid(i) => i < 256
    case Low(i, j) => i < 256 && j < 512
  }

  ghost predicate PagesOk(t: Tree) {
    && Root in t.at
    && (forall p :: p in t.at ==> PlaceOk(p) && Aligned(t.at[p]) && t.at[p] !in t.free)
    && (forall p, q :: p in t.at && q in t.at && p != q ==> t.at[p] != t.at[q])
    && (forall i, j :: Low(i, j) in t.at ==> Mid(i) in t.at)
  }

  ghost predicate FreeOk(t: Tree) {
    && (forall i, j :: 0 <= i < j < |t.free| ==> t.free[i] != t.free[j])
    && (forall f :: f in t.free ==> Aligned(f))
  }

  ghost predicate EntriesOk(t: Tree)
    requires Root in t.at
  {
    && (forall i :: i < 512 ==> EntryOk(t, Root, Mid(i), i))
    && (forall i, j :: Mid(i) in t.at && j < 512 ==> EntryOk(t, Mid(i), Low(i, j), j))
  }

  ghost predicate Wf(t: Tree) {
    PagesOk(t) && FreeOk(t) && EntriesOk(t)
  }

  function LowOf(va: nat): Place {
    Low(PX(2, va), PX(1, va))
  }

  lemma LookupIs(t: Tree, va: nat)
    requires Wf(t) && va < MAXVA
    ensures Lookup(t.mem, t.at[Root], va) == if LowOf(va) in t.at then Some(Slot(t.at[LowOf(va)], PX(0, va))) else None
  {
    hide PX, PTE2PA, V, Inner, Aligned, FreeOk;
    PxDigits(va);
    var i, j := PX(2, va), PX(1, va);
    assert EntryOk(t, Root, Mid(i), i);
    if Mid(i) in t.at {
      assert EntryOk(t, Mid(i), Low(i, j), j);
    }
  }

  /** The tree after walk has put a fresh zeroed page at child, under entry idx of parent. */
  ghost function Extended(t: Tree, parent: Place, child: Place, idx: nat): Tree
    requires t.free != [] && parent in t.at
  {
    var f := t.free[0];
    Tree(Zeroed(t.mem, f)[Slot(t.at[parent], idx) := PA2PTE(f) | PTE_V], t.at[child := f], t.free[1..])
  }

  /** child is where entry idx of parent leads. */
  predicate LeadsTo(parent: Place, child: Place, idx: nat) {
    match parent
    case Root => child == Mid(idx) && idx < 256
    case Mid(i) => child == Low(i, idx) && idx < 512
    case Low(_, _) => false
  }

  lemma ZeroInvalid()
    ensures !V(0)
  {
  }

  lemma ExtendPages(t: Tree, parent: Place, child: Place, idx: nat)
    requires PagesOk(t) && FreeOk(t) && t.free != [] && parent in t.at && LeadsTo(parent, child, idx) && child !in t.at
    ensures var t' := Extended(t, parent, child, idx); PagesOk(t') && FreeOk(t')
  {
    hide PA2PTE, Zeroed, Aligned;
    assert t.free[0] in t.free;
  }

  /** Adding a page changes the one entry that leads to it. */
  lemma ExtendEntry(t: Tree, parent: Place, child: Place, idx: nat, p: Place, c: Place, n: nat)
    requires PagesOk(t) && FreeOk(t) && t.free != [] && parent in t.at && child !in t.at
    requires p in t.at[child := t.free[0]]
    requires p in t.at ==> EntryOk(t, p, c, n)
    requires (c == child <==> p == parent && n == idx) && (p !in t.at ==> c !in t.at)
    ensures EntryOk(Extended(t, parent, child, idx), p, c, n)
  {
    hide PA2PTE, PTE2PA, V, Inner, Aligned, PlaceOk;
    var f := t.free[0];
    assert f in t.free;
    ZeroInvalid();
    TablePte(f);
    if p in t.at {
      assert t.at[p] != f;
    }
  }

  lemma ExtendWf(t: Tree, parent: Place, child: Place, idx: nat)
    requires Wf(t) && t.free != [] && parent in t.at && LeadsTo(parent, child, idx) && child !in t.at
    ensures Wf(Extended(t, parent, child, idx))
  {
    hide PA2PTE, PTE2PA, V, EntryOk, Aligned, FreeOk;
    var t' := Extended(t, parent, child, idx);
    ExtendPages(t, parent, child, idx);
    forall i: nat | i < 512
      ensures EntryOk(t', Root, Mid(i), i)
    {
      ExtendEntry(t, parent, child, idx, Root, Mid(i), i);
    }
    forall i, j: nat | Mid(i) in t'.at && j < 512
      ensures EntryOk(t', Mid(i), Low(i, j), j)
    {
      ExtendEntry(t, parent, child, idx, Mid(i), Low(i, j), j);
    }
  }

  /** walk never changes existing mappings, even when it allocates. */
  lemma ExtendFlat(t: Tree, parent: Place, child: Place, idx: nat, va: nat)
    requires Wf(t) && t.free != [] && parent in t.at && LeadsTo(parent, child, idx) && child !in t.at && va < MAXVA
    ensures PteOf(Extended(t, parent, child, idx).mem, t.at[Root], va) == PteOf(t.mem, t.at[Root], va)
  {
    hide PX, PA2PTE, PTE2PA, V, Lookup, EntryOk, Aligned, EntriesOk;
    ExtendWf(t, parent, child, idx);
    LookupIs(t, va);
    LookupIs(Extended(t, parent, child, idx), va);
    assert t.free[0] in t.free;
  }

  ghost function WithPte(t: Tree, va: nat, pte: Word): Tree
    requires LowOf(va) in t.at
  {
    t.(mem := t.mem[Slot(t.at[LowOf(va)], PX(0, va)) := pte])
  }

  lemma WriteWf(t: Tree, va: nat, pte: Word)
    requires Wf(t) && LowOf(va) in t.at
    ensures Wf(WithPte(t, va, pte))
  {
    hide PX, PTE2PA, V, Inner, Aligned;
    var t' := WithPte(t, va, pte);
    forall i: nat | i < 512
      ensures EntryOk(t', Root, Mid(i), i)
    {
      assert EntryOk(t, Root, Mid(i), i);
    }
    forall i, j: nat | Mid(i) in t'.at && j < 512
      ensures EntryOk(t', Mid(i), Low(i, j), j)
    {
      assert EntryOk(t, Mid(i), Low(i, j), j);
    }
  }

  /** Writing the PTE of va changes the mapping of its page and of no other. */
  lemma WriteFlat(t: Tree, va: nat, pte: Word, va': nat)
    requires Wf(t) && LowOf(va) in t.at && va < MAXVA && va' < MAXVA
    ensures PteOf(WithPte(t, va, pte).mem, t.at[Root], va') ==
            if va' / PGSIZE == va / PGSIZE then pte else PteOf(t.mem, t.at[Root], va')
  {
    hide PX, PTE2PA, V, Lookup, EntryOk, Aligned, EntriesOk;
    WriteWf(t, va, pte);
    LookupIs(t, va');
    LookupIs(WithPte(t, va, pte), va');
    PxInjective(va, va');
  }

  ghost predicate SameMap(mem: map<Slot, Word>, mem': map<Slot, Word>, root: Word) {
    forall va: nat :: va < MAXVA ==> PteOf(mem', root, va) == PteOf(mem, root, va)
  }

  /** Memory that is neither in the tree nor free is left alone, and the tree only takes pages from the free list. */
  ghost predicate Framed(t: Tree, t': Tree) {
    && (forall p :: p in t.at ==> p in t'.at && t'.at[p] == t.at[p])
    && (forall p :: p in t'.at && p !in t.at ==> t'.at[p] in t.free)
    && (forall f :: f in t'.free ==> f in t.free)
    && (forall s: Slot :: Foreign(t, s.page) ==> Read(t'.mem, s) == Read(t.mem, s))
  }

  ghost predicate Foreign(t: Tree, page: Word) {
    page !in t.free && forall p :: p in t.at ==> t.at[p] != page
  }

  lemma ExtendAll(t: Tree, parent: Place, child: Place, idx: nat)
    requires Wf(t) && t.free != [] && parent in t.at && LeadsTo(parent, child, idx) && child !in t.at
    ensures var t' := Extended(t, parent, child, idx); Wf(t') && SameMap(t.mem, t'.mem, t.at[Root]) && Framed(t, t')
  {
    hide PX, PA2PTE, PTE2PA, V, PteOf, EntryOk, Aligned, EntriesOk;
    ExtendWf(t, parent, child, idx);
    forall va: nat | va < MAXVA
      ensures PteOf(Extended(t, parent, child, idx).mem, t.at[Root], va) == PteOf(t.mem, t.at[Root], va)
    {
      ExtendFlat(t, parent, child, idx, va);
    }
    assert t.free[0] in t.free;
  }

  /** The page-table page that walk is at when it has reached level. */
  function PlaceAt(va: nat, level: nat): Place {
    if level == 2 then Root else if level == 1 then Mid(PX(2, va)) else LowOf(va)
  }

  /** The page-table pages below the root that walk has passed when it has reached level. */
  function WayTo(va: nat, level: nat): set<Place> {
    (if level < 2 then {PlaceAt(va, 1)} else {}) + (if level < 1 then {PlaceAt(va, 0)} else {})
  }

  lemma WayStart(places: set<Place>, va: nat)
    ensures WayTo(va, 2) == {} && places + WayTo(va, 2) == places && |WayTo(va, 2) - places| == 0
  {
  }

  /** One level further down: one more page, which is missing at most once, and none that is needed later. */
  lemma WayStep(before: set<Place>, places: set<Place>, va: nat, level: nat)
    requires 1 <= level <= 2 && places == before + WayTo(va, level)
    ensures var next := PlaceAt(va, level - 1);
            && places + {next} == before + WayTo(va, level - 1)
            && |WayTo(va, level - 1) - before| == |WayTo(va, level) - before| + (if next in places then 0 else 1)
            && |WayTo(va, level - 1) - before| <= |WayTo(va, 0) - before|
  {
    var next := PlaceAt(va, level - 1);
    WayGrows(va, level);
    hide WayTo, PlaceAt;
    OneMissing(before, WayTo(va, level), next);
    SubsetSize(WayTo(va, level - 1) - before, WayTo(va, 0) - before);
  }

  lemma WayGrows(va: nat, level: nat)
    requires 1 <= level <= 2
    ensures WayTo(va, level - 1) == WayTo(va, level) + {PlaceAt(va, level - 1)} && PlaceAt(va, level - 1) !in WayTo(va, level)
    ensures WayTo(va, level - 1) <= WayTo(va, 0)
  {
    hide PX;
  }

  lemma OneMissing(before: set<Place>, way: set<Place>, next: Place)
    requires next !in way
    ensures before + way + {next} == before + (way + {next})
    ensures |way + {next} - before| == |way - before| + (if next in before + way then 0 else 1)
  {
    if next in before {
      assert way + {next} - before == way - before;
    } else {
      assert way + {next} - before == (way - before) + {next};
    }
  }

  lemma WalkStep(t: Tree, va: nat, level: nat)
    requires Wf(t) && va < MAXVA && 1 <= level <= 2 && PlaceAt(va, level) in t.at
    ensures LeadsTo(PlaceAt(va, level), PlaceAt(va, level - 1), PX(level, va))
    ensures EntryOk(t, PlaceAt(va, level), PlaceAt(va, level - 1), PX(level, va))
    ensures PlaceAt(va, level - 1) !in t.at ==> LowOf(va) !in t.at
  {
    hide PX, EntryOk, Aligned, FreeOk;
    PxDigits(va);
    if level == 2 {
      assert EntryOk(t, Root, Mid(PX(2, va)), PX(2, va));
    } else {
      assert EntryOk(t, Mid(PX(2, va)), LowOf(va), PX(1, va));
    }
  }

  lemma KeptOnce(t: Tree, root: Word)
    ensures Framed(t, t) && SameMap(t.mem, t.mem, root)
  {
  }

  lemma SameMapTwice(mem: map<Slot, Word>, mem': map<Slot, Word>, mem'': map<Slot, Word>, root: Word)
    requires SameMap(mem, mem', root) && SameMap(mem', mem'', root)
    ensures SameMap(mem, mem'', root)
  {
    hide PteOf;
  }

  lemma FramedTwice(t: Tree, t': Tree, t'': Tree)
    requires Framed(t, t') && Framed(t', t'')
    ensures Framed(t, t'')
  {
    forall s: Slot | Foreign(t, s.page)
      ensures Read(t''.mem, s) == Read(t.mem, s)
    {
      assert Foreign(t', s.page);
      assert Read(t'.mem, s) == Read(t.mem, s);
    }
  }

  /** What a range of pages is mapped to: the memory from pa on, or nothing. */
  datatype Fill = To(pa: Word, perm: Word) | Nothing

  /** The address of the n-th page from pa on. */
  function FrameAt(pa: Word, n: nat): Word {
    if n == 0 then pa else FrameAt(pa, n - 1) + 0x1000
  }

  function LeafPte(pa: Word, perm: Word): Word {
    PA2PTE(pa) | perm | PTE_V
  }

  /** The PTE for the n-th page of the range. */
  function PteIn(fill: Fill, n: nat): Word {
    match fill
    case To(pa, perm) => LeafPte(FrameAt(pa, n), perm)
    case Nothing => 0
  }

  /** mem' maps what mem does, except for the n pages from page first on, which are filled. */
  ghost predicate MapsRange(mem: map<Slot, Word>, mem': map<Slot, Word>, root: Word, first: nat, n: nat, fill: Fill) {
    forall va: nat :: va < MAXVA ==> PteOf(mem', root, va) == PteAfter(PteOf(mem, root, va), va / PGSIZE, first, n, fill)
  }

  function PteAfter(pte: Word, page: nat, first: nat, n: nat, fill: Fill): Word {
    if first <= page < first + n then PteIn(fill, page - first) else pte
  }

  lemma EmptyRange(mem: map<Slot, Word>, root: Word, first: nat, fill: Fill)
    ensures MapsRange(mem, mem, root, first, 0, fill)
  {
  }

  lemma RootIn(t: Tree)
    requires Wf(t)
    ensures Root in t.at
  {
  }

  lemma MappedSame(mem: map<Slot, Word>, mem': map<Slot, Word>, mem'': map<Slot, Word>, root: Word, first: nat, n: nat, fill: Fill)
    requires MapsRange(mem, mem', root, first, n, fill) && SameMap(mem', mem'', root)
    ensures MapsRange(mem, mem'', root, first, n, fill)
  {
    hide PteOf, PteAfter;
  }

  /** One iteration of mappages or uvmunmap: the range grows by the page at a. */
  lemma RangeStep(mem: map<Slot, Word>, t: Tree, a: nat, first: nat, n: nat, fill: Fill)
    requires Wf(t) && LowOf(a) in t.at && a < MAXVA && a == (first + n) * PGSIZE
    requires MapsRange(mem, t.mem, t.at[Root], first, n, fill)
    ensures MapsRange(mem, WithPte(t, a, PteIn(fill, n)).mem, t.at[Root], first, n + 1, fill)
  {
    hide Wf, PteOf, PteIn, WithPte;
    RootIn(t);
    var root := t.at[Root];
    forall va: nat | va < MAXVA
      ensures PteOf(WithPte(t, a, PteIn(fill, n)).mem, root, va) == PteAfter(PteOf(mem, root, va), va / PGSIZE, first, n + 1, fill)
    {
      WriteFlat(t, a, PteIn(fill, n), va);
    }
  }

  /** A page outside the range, as walk finds it, is as it was before. */
  lemma OutsideRange(mem: map<Slot, Word>, mem': map<Slot, Word>, root: Word, first: nat, n: nat, fill: Fill, a: nat)
    requires MapsRange(mem, mem', root, first, n, fill) && a < MAXVA && !(first <= a / PGSIZE < first + n)
    ensures PteOf(mem', root, a) == PteOf(mem, root, a)
    ensures Lookup(mem', root, a).Some? ==> Read(mem', Lookup(mem', root, a).value) == PteOf(mem, root, a)
    ensures V(PteOf(mem, root, a)) ==> Lookup(mem', root, a).Some?
  {
    assert PteOf(mem', root, a) == PteOf(mem, root, a);
    ZeroInvalid();
  }

  lemma PageStart(page: nat, end: nat)
    requires page <= end && end * PGSIZE < MAXVA
    ensures page * PGSIZE / PGSIZE == page && page * PGSIZE < MAXVA
    ensures page * PGSIZE == end * PGSIZE <==> page == end
  {
  }

  lemma LastPage(va: nat, size: nat)
    requires size != 0 && va + size <= MAXVA
    ensures va / PGSIZE <= (va + size - 1) / PGSIZE && (va + size - 1) / PGSIZE * PGSIZE < MAXVA
  {
  }

  // Freeing the tree.

  /** q is p or below it in the tree. */
  predicate AtOrBelow(p: Place, q: Place) {
    match p
    case Root => true
    case Mid(i) => q == p || (q.Low? && q.i == i)
    case Low(_, _) => q == p
  }

  function Child(p: Place, idx: nat): Place
    requires !p.Low?
  {
    if p.Root? then Mid(idx) else Low(p.i, idx)
  }

  function Height(p: Place): nat {
    if p.Root? then 2 else if p.Mid? then 1 else 0
  }

  /** The entries of the page at q lead to its children, and at the lowest level nowhere. */
  ghost predicate NodeOk(t: Tree, q: Place)
    requires q in t.at
  {
    if q.Low? then forall k: nat :: k < 512 ==> !V(Read(t.mem, Slot(t.at[q], k)))
    else forall k: nat :: k < 512 ==> EntryOk(t, q, Child(q, k), k)
  }

  ghost predicate NodesUnder(t: Tree, p: Place) {
    forall q :: q in t.at && AtOrBelow(p, q) ==> NodeOk(t, q)
  }

  ghost predicate Outside(at: map<Place, Word>, p: Place, page: Word) {
    forall q :: q in at && AtOrBelow(p, q) ==> at[q] != page
  }

  ghost predicate PlacesDiffer(at: map<Place, Word>) {
    && (forall p, q :: p in at && q in at && p != q ==> at[p] != at[q])
    && (forall p :: p in at ==> PlaceOk(p))
    && (forall i, j :: Low(i, j) in at ==> Mid(i) in at)
  }

  /** free is before, with the pages at the places of order pushed in front, the last one first. */
  ghost predicate Pushed(free: seq<Word>, before: seq<Word>, at: map<Place, Word>, order: seq<Place>) {
    && |free| == |order| + |before|
    && free[|order|..] == before
    && (forall i :: 0 <= i < |order| ==> order[i] in at && free[i] == at[order[i]])
    && (forall i, j :: 0 <= i < j < |order| ==> order[i] != order[j])
  }

  /** q is below one of the first i children of p. */
  predicate FreedBefore(p: Place, q: Place, i: nat) {
    match p
    case Root => (q.Mid? || q.Low?) && q.i < i
    case Mid(m) => q.Low? && q.i == m && q.j < i
    case Low(_, _) => false
  }

  /** What freewalk reads at entry i of the page of p. */
  lemma EntryHere(t: Tree, p: Place, i: nat)
    requires p in t.at && NodesUnder(t, p) && i < 512
    ensures var pte := Read(t.mem, Slot(t.at[p], i));
            && (V(pte) <==> !p.Low? && Child(p, i) in t.at)
            && (V(pte) ==> Inner(pte) && PTE2PA(pte) == t.at[Child(p, i)])
  {
    hide V, Inner, PTE2PA;
    assert NodeOk(t, p);
    if !p.Low? {
      assert EntryOk(t, p, Child(p, i), i);
    }
  }

  lemma FreedNext(p: Place, q: Place, i: nat)
    requires PlaceOk(q)
    ensures FreedBefore(p, q, i + 1) <==> FreedBefore(p, q, i) || (!p.Low? && AtOrBelow(Child(p, i), q))
    ensures !p.Low? && AtOrBelow(Child(p, i), q) ==> AtOrBelow(p, q) && q != p && !FreedBefore(p, q, i)
    ensures AtOrBelow(p, q) <==> q == p || FreedBefore(p, q, 512)
  {
  }

  lemma NodeKept(t: Tree, t': Tree, q: Place)
    requires q in t.at && NodeOk(t, q) && t'.at == t.at
    requires forall k: nat :: k < 512 ==> Read(t'.mem, Slot(t.at[q], k)) == Read(t.mem, Slot(t.at[q], k))
    ensures NodeOk(t', q)
  {
    hide V, Inner, PTE2PA, Read;
    if !q.Low? {
      forall k: nat | k < 512
        ensures EntryOk(t', q, Child(q, k), k)
      {
        assert EntryOk(t, q, Child(q, k), k);
      }
    }
  }

  lemma PushedTwice(free: seq<Word>, free': seq<Word>, free'': seq<Word>, at: map<Place, Word>, order: seq<Place>, below: seq<Place>)
    requires Pushed(free', free, at, order) && Pushed(free'', free', at, below)
    requires forall q :: q in order ==> q !in below
    ensures Pushed(free'', free, at, below + order)
  {
    var all := below + order;
    assert free''[|all|..] == free''[|below|..][|order|..];
    forall i | 0 <= i < |all|
      ensures all[i] in at && free''[i] == at[all[i]]
    {
      if i >= |below| {
        assert free''[i] == free''[|below|..][i - |below|];
        assert all[i] == order[i - |below|];
      }
    }
    forall i, j | 0 <= i < j < |all|
      ensures all[i] != all[j]
    {
      if i < |below| <= j {
        assert all[j] == order[j - |below|] && all[j] in order && all[i] in below;
      }
    }
  }

  /** The pages freed so far and the old free pages are outside the next child. */
  lemma FreeOutside(free: seq<Word>, free': seq<Word>, at: map<Place, Word>, order: seq<Place>, p: Place, c: Place)
    requires Pushed(free', free, at, order) && PlacesDiffer(at)
    requires forall w :: w in free ==> Outside(at, p, w)
    requires forall q :: q in at && AtOrBelow(c, q) ==> AtOrBelow(p, q) && q !in order
    ensures forall w :: w in free' ==> Outside(at, c, w)
  {
    forall w, q | w in free' && q in at && AtOrBelow(c, q)
      ensures at[q] != w
    {
      var i :| 0 <= i < |free'| && free'[i] == w;
      if i < |order| {
        assert order[i] in order;
      } else {
        assert free'[|order|..][i - |order|] == w;
        assert w in free;
      }
    }
  }

  /** order lists the places below the first i children of p. */
  ghost predicate Listed(at: map<Place, Word>, p: Place, i: nat, order: seq<Place>) {
    forall q :: q in order <==> q in at && FreedBefore(p, q, i)
  }

  lemma ListedNext(at: map<Place, Word>, p: Place, i: nat, order: seq<Place>, below: seq<Place>)
    requires PlacesDiffer(at) && Listed(at, p, i, order) && i < 512
    requires forall q :: q in below <==> !p.Low? && q in at && AtOrBelow(Child(p, i), q)
    ensures Listed(at, p, i + 1, below + order)
    ensures forall q :: q in order ==> q !in below
  {
    forall q
      ensures q in below + order <==> q in at && FreedBefore(p, q, i + 1)
      ensures q in order ==> q !in below
    {
      if q in at {
        FreedNext(p, q, i);
      }
    }
  }

  /** Memory outside the tree below p, and the entries of p from i on, are as they were. */
  ghost predicate MemKept(t: Tree, mem: map<Slot, Word>, p: Place, i: nat)
    requires p in t.at
  {
    forall s: Slot :: Outside(t.at, p, s.page) || (s.page == t.at[p] && s.index >= i) ==> Read(mem, s) == Read(t.mem, s)
  }

  /** The tree below the children of p from i on is intact. */
  ghost predicate Pending(t: Tree, p: Place, i: nat) {
    forall q :: q in t.at && AtOrBelow(p, q) && q != p && !FreedBefore(p, q, i) ==> NodeOk(t, q)
  }

  lemma PendingChild(t: Tree, p: Place, i: nat)
    requires PlacesDiffer(t.at) && Pending(t, p, i) && !p.Low? && i < 512
    ensures NodesUnder(t, Child(p, i))
  {
    hide NodeOk;
    forall q | q in t.at && AtOrBelow(Child(p, i), q)
      ensures NodeOk(t, q)
    {
      FreedNext(p, q, i);
    }
  }

  /** After child i is freed and its entry cleared, the rest of the tree below p is still intact. */
  lemma PendingNext(t: Tree, mem: map<Slot, Word>, t': Tree, p: Place, i: nat)
    requires p in t.at && PlacesDiffer(t.at) && Pending(t, p, i) && !p.Low? && i < 512
    requires forall s: Slot :: Outside(t.at, Child(p, i), s.page) ==> Read(mem, s) == Read(t.mem, s)
    requires t'.at == t.at && t'.mem == mem[Slot(t.at[p], i) := 0]
    ensures Pending(t', p, i + 1)
  {
    hide NodeOk, Read;
    forall q | q in t.at && AtOrBelow(p, q) && q != p && !FreedBefore(p, q, i + 1)
      ensures NodeOk(t', q)
    {
      FreedNext(p, q, i);
      assert NodeOk(t, q);
      OtherChild(t.at, p, i, q);
      forall k: nat | k < 512
        ensures Read(t'.mem, Slot(t.at[q], k)) == Read(t.mem, Slot(t.at[q], k))
      {
        ReadOther(mem, Slot(t.at[p], i), Slot(t.at[q], k));
      }
      NodeKept(t, t', q);
    }
  }

  lemma OtherChild(at: map<Place, Word>, p: Place, i: nat, q: Place)
    requires PlacesDiffer(at) && p in at && q in at && !p.Low? && !AtOrBelow(Child(p, i), q)
    ensures Outside(at, Child(p, i), at[q])
  {
  }

  lemma ReadOther(mem: map<Slot, Word>, s: Slot, s': Slot)
    requires s != s'
    ensures Read(mem[s := 0], s') == Read(mem, s')
  {
  }

  lemma MemKeptNext(t: Tree, mem: map<Slot, Word>, mem': map<Slot, Word>, p: Place, i: nat)
    requires p in t.at && PlacesDiffer(t.at) && MemKept(t, mem, p, i) && !p.Low? && i < 512
    requires forall s: Slot :: Outside(t.at, Child(p, i), s.page) ==> Read(mem', s) == Read(mem, s)
    ensures MemKept(t, mem'[Slot(t.at[p], i) := 0], p, i + 1)
  {
    hide Read;
    forall s: Slot | Outside(t.at, p, s.page) || (s.page == t.at[p] && s.index >= i + 1)
      ensures Read(mem'[Slot(t.at[p], i) := 0], s) == Read(t.mem, s)
    {
      assert Outside(t.at, Child(p, i), s.page) by {
        forall q | q in t.at && AtOrBelow(Child(p, i), q)
          ensures t.at[q] != s.page
        {
          FreedNext(p, q, i);
        }
      }
      assert AtOrBelow(p, p);
      ReadOther(mem', Slot(t.at[p], i), s);
    }
  }

  class PageTable {
    const root: Word
    var mem: map<Slot, Word>
    var free: seq<Word>
    ghost var at: map<Place, Word>

    constructor (root: Word, pool: seq<Word>)
      requires Aligned(root) && root !in pool
      requires (forall f :: f in pool ==> Aligned(f)) && forall i, j :: 0 <= i < j < |pool| ==> pool[i] != pool[j]
      ensures Valid() && this.root == root && free == pool && forall va :: Pte(va) == 0
    {
      this.root, free, mem := root, pool, map[];
      at := map[Root := root];
    }

    ghost function State(): Tree
      reads this
    {
      Tree(mem, at, free)
    }

    ghost predicate Valid()
      reads this
    {
      Root in at && at[Root] == root && Wf(State())
    }

    function Pte(va: nat): Word
      reads this
    {
      PteOf(mem, root, va)
    }

    /** walk's allocation of a zeroed page for entry idx of the page at parent. */
    method AddTable(pagetable: Word, idx: nat, ghost parent: Place, ghost child: Place) returns (page: Word)
      requires Valid() && free != [] && LeadsTo(parent, child, idx) && parent in at && at[parent] == pagetable && child !in at
      modifies this
      ensures Valid() && SameMap(old(mem), mem, root) && Framed(old(State()), State())
      ensures child in at && at[child] == page && at.Keys == old(at).Keys + {child} && |free| == |old(free)| - 1
    {
      hide PA2PTE, Wf, PteOf, SameMap, Framed;
      ExtendAll(State(), parent, child, idx);
      page := free[0];
      free := free[1..];
      mem := Zeroed(mem, page);
      mem := mem[Slot(pagetable, idx) := PA2PTE(page) | PTE_V];
      at := at[child := page];
      assert State() == Extended(old(State()), parent, child, idx);
    }

    /** Find, or with alloc make, the slot of the PTE for va: exactly the page-table pages missing on the way are added. */
    method Walk(va: nat, alloc: bool) returns (slot: Option<Slot>)
      requires Valid() && va < MAXVA
      modifies this
      ensures Valid() && SameMap(old(mem), mem, root) && Framed(old(State()), State())
      ensures slot == Lookup(mem, root, va)
      ensures slot.Some? <==> |WayTo(va, 0) - old(at).Keys| <= if alloc then |old(free)| else 0
      ensures slot.Some? ==> at.Keys == old(at).Keys + WayTo(va, 0)
      ensures !alloc ==> State() == old(State())
      ensures alloc && slot.None? ==> free == []
    {
      hide PX, PA2PTE, PTE2PA, V, Wf, PteOf, Lookup, LowOf, SameMap, Framed, WayTo;
      ghost var was := State();
      KeptOnce(was, root);
      WayStart(was.at.Keys, va);
      var level, pagetable := 2, root;
      while level > 0
        invariant 0 <= level <= 2
        invariant Valid() && SameMap(was.mem, mem, root) && Framed(was, State())
        invariant PlaceAt(va, level) in at && pagetable == at[PlaceAt(va, level)]
        invariant !alloc ==> State() == was
        invariant at.Keys == was.at.Keys + WayTo(va, level) && |free| + |WayTo(va, level) - was.at.Keys| == |was.free|
      {
        ghost var t := State();
        WalkStep(t, va, level);
        LookupIs(t, va);
        WayStep(was.at.Keys, t.at.Keys, va, level);
        var pte := Slot(pagetable, PX(level, va));
        if V(Read(mem, pte)) {
          pagetable := PTE2PA(Read(mem, pte));
        } else {
          if !alloc || free == [] {
            return None;
          }
          pagetable := AddTable(pagetable, PX(level, va), PlaceAt(va, level), PlaceAt(va, level - 1));
          SameMapTwice(was.mem, t.mem, mem, root);
          FramedTwice(was, t, State());
        }
        level := level - 1;
      }
      LookupIs(State(), va);
      slot := Some(Slot(pagetable, PX(0, va)));
    }

    /**
     Map the pages of va to va + size - 1, which must be unmapped, to the memory from pa on. On failure the
     first done pages stay mapped.
     */
    method MapPages(va: nat, size: nat, pa: Word, perm: Word) returns (r: int, ghost done: nat)
      requires Valid() && size != 0 && va + size <= MAXVA
      requires forall x: nat :: x < MAXVA && va / PGSIZE <= x / PGSIZE <= (va + size - 1) / PGSIZE ==> !V(Pte(x))
      modifies this
      ensures Valid()
      ensures MapsRange(old(mem), mem, root, va / PGSIZE, done, To(pa, perm))
      ensures r == 0 || r == -1
      ensures r == 0 ==> done == (va + size - 1) / PGSIZE - va / PGSIZE + 1
      ensures r == -1 ==> done < (va + size - 1) / PGSIZE - va / PGSIZE + 1 && free == []
    {
      hide Wf, PteOf, Aligned, PX, LowOf, PteIn, LeafPte, MapsRange, SameMap, Framed, Lookup, V, WayTo;
      var a, last, frame := va / PGSIZE * PGSIZE, (va + size - 1) / PGSIZE * PGSIZE, pa;
      ghost var was, first, end, fill := mem, va / PGSIZE, (va + size - 1) / PGSIZE, To(pa, perm);
      LastPage(va, size);
      done := 0;
      EmptyRange(mem, root, first, fill);
      while true
        invariant Valid() && first + done <= end && a == (first + done) * PGSIZE && last == end * PGSIZE
        invariant frame == FrameAt(pa, done)
        invariant MapsRange(was, mem, root, first, done, fill)
        decreases last - a
      {
        ghost var t := State();
        PageStart(first + done, end);
        var slot := Walk(a, true);
        MappedSame(was, t.mem, mem, root, first, done, fill);
        if slot.None? {
          return -1, done;
        }
        OutsideRange(was, mem, root, first, done, fill, a);
        assert !V(old(Pte(a)));
        assert !V(Read(mem, slot.value));
        LookupIs(State(), a);
        RangeStep(was, State(), a, first, done, fill);
        WriteWf(State(), a, PteIn(fill, done));
        FilledPte(pa, perm, done);
        mem := mem[slot.value := LeafPte(frame, perm)];
        done := done + 1;
        if a == last {
          break;
        }
        a := a + PGSIZE;
        frame := frame + 0x1000;
      }
      r := 0;
    }

    /**
     Remove the npages mappings from va on, which must exist and be leaves. pas are the addresses that were
     mapped, in order, which the caller's do_free passes to kfree.
     */
    method Uvmunmap(va: nat, npages: nat) returns (pas: seq<Word>)
      requires Valid() && va % PGSIZE == 0 && va + npages * PGSIZE <= MAXVA
      requires forall x: nat :: va <= x < va + npages * PGSIZE ==> V(Pte(x)) && PteFlags(Pte(x)) != PTE_V
      modifies this
      ensures Valid() && at == old(at) && free == old(free)
      ensures MapsRange(old(mem), mem, root, va / PGSIZE, npages, Nothing)
      ensures |pas| == npages && forall i: nat :: i < npages ==> pas[i] == PTE2PA(old(Pte(va + i * PGSIZE)))
    {
      hide Wf, PteOf, Aligned, PX, LowOf, PteIn, LeafPte, MapsRange, SameMap, Framed, Lookup, V, PTE2PA, PteFlags, WayTo;
      var a := va;
      ghost var first := va / PGSIZE;
      pas := [];
      EmptyRange(mem, root, first, Nothing);
      while a < va + npages * PGSIZE
        invariant Valid() && at == old(at) && free == old(free)
        invariant a == va + |pas| * PGSIZE && |pas| <= npages
        invariant MapsRange(old(mem), mem, root, first, |pas|, Nothing)
        invariant forall i: nat :: i < |pas| ==> pas[i] == PTE2PA(old(Pte(va + i * PGSIZE)))
      {
        var slot := Walk(a, false);
        OutsideRange(old(mem), mem, root, first, |pas|, Nothing, a);
        assert V(old(Pte(a)));
        assert slot.Some? && V(Read(mem, slot.value)) && PteFlags(Read(mem, slot.value)) != PTE_V;
        LookupIs(State(), a);
        RangeStep(old(mem), State(), a, first, |pas|, Nothing);
        WriteWf(State(), a, 0);
        ClearedPte(|pas|);
        pas := pas + [PTE2PA(Read(mem, slot.value))];
        mem := mem[slot.value := 0];
        a := a + PGSIZE;
      }
    }

    /** Give back the page-table page of p and all below it. order lists their places, each once. */
    method FreeWalk(pagetable: Word, ghost p: Place) returns (ghost order: seq<Place>)
      requires p in at && at[p] == pagetable && PlacesDiffer(at) && NodesUnder(State(), p)
      requires forall w :: w in free ==> Outside(at, p, w)
      modifies this`mem, this`free
      ensures Pushed(free, old(free), at, order)
      ensures forall q :: q in order <==> q in at && AtOrBelow(p, q)
      ensures forall s: Slot :: Outside(at, p, s.page) ==> Read(mem, s) == Read(old(mem), s)
      decreases Height(p)
    {
      hide V, Inner, PTE2PA, NodeOk, Pushed, Listed, MemKept, Pending, PlacesDiffer, NodesUnder, Read;
      order := [];
      var i := 0;
      FreeWalkStart(State(), p);
      while i < 512
        invariant 0 <= i <= 512
        invariant Pushed(free, old(free), at, order)
        invariant Listed(at, p, i, order)
        invariant MemKept(old(State()), mem, p, i)
        invariant Pending(State(), p, i)
      {
        var pte := Read(mem, Slot(pagetable, i));
        EntryHere(old(State()), p, i);
        EntryKept(old(State()), mem, p, i);
        if V(pte) && Inner(pte) {
          ghost var t := State();
          PendingChild(t, p, i);
          ChildFree(old(free), free, at, order, p, i);
          ghost var below := FreeWalk(PTE2PA(pte), Child(p, i));
          ListedNext(at, p, i, order, below);
          MemKeptNext(old(State()), t.mem, mem, p, i);
          PushedTwice(old(free), t.free, free, at, order, below);
          ghost var after := mem;
          mem := mem[Slot(pagetable, i) := 0];
          PendingNext(t, after, State(), p, i);
          order := below + order;
        } else if V(pte) {
          assert false;
        } else {
          NothingBelow(State(), old(State()), p, i, order);
        }
        i := i + 1;
      }
      FreeWalkEnd(old(State()), mem, free, p, order);
      free := [pagetable] + free;
      order := [p] + order;
    }

    /**
     freewalk on a whole page table from which every mapping has been removed: all its pages, each once, are put
     on the free list, and nothing else is.
     */
    method FreeTree() returns (ghost order: seq<Place>)
      requires Valid() && forall va: nat :: va < MAXVA ==> !V(Pte(va))
      modifies this
      ensures Pushed(free, old(free), old(at), order)
      ensures forall q :: q in order <==> q in old(at)
      ensures forall s: Slot :: Foreign(old(State()), s.page) ==> Read(mem, s) == Read(old(mem), s)
    {
      hide V, PteOf, NodesUnder, Read;
      forall va: nat | va < MAXVA
        ensures !V(PteOf(mem, root, va))
      {
        assert !V(Pte(va));
      }
      NoLeaves(State());
      order := FreeWalk(root, Root);
    }
  }

  /** With no mapping left, freewalk's panic on a leaf is unreachable. */
  lemma NoLeaves(t: Tree)
    requires Wf(t) && forall va: nat :: va < MAXVA ==> !V(PteOf(t.mem, t.at[Root], va))
    ensures NodesUnder(t, Root) && PlacesDiffer(t.at)
    ensures forall w :: w in t.free ==> Outside(t.at, Root, w)
  {
    hide V, PteOf, EntryOk, Read, PX;
    forall q | q in t.at
      ensures NodeOk(t, q)
    {
      if q.Low? {
        forall k: nat | k < 512
          ensures !V(Read(t.mem, Slot(t.at[q], k)))
        {
          NoLeaf(t, q.i, q.j, k);
        }
      }
    }
  }

  lemma NoLeaf(t: Tree, i: nat, j: nat, k: nat)
    requires Wf(t) && Low(i, j) in t.at && k < 512
    requires forall va: nat :: va < MAXVA ==> !V(PteOf(t.mem, t.at[Root], va))
    ensures !V(Read(t.mem, Slot(t.at[Low(i, j)], k)))
  {
    hide V, EntriesOk, Lookup, PX, VaOf;
    assert PlaceOk(Low(i, j));
    PxSurjective(i, j, k);
    LookupIs(t, VaOf(i, j, k));
    assert !V(PteOf(t.mem, t.at[Root], VaOf(i, j, k)));
  }

  lemma FreeWalkStart(t: Tree, p: Place)
    requires p in t.at && PlacesDiffer(t.at) && NodesUnder(t, p)
    ensures Pushed(t.free, t.free, t.at, []) && Listed(t.at, p, 0, []) && MemKept(t, t.mem, p, 0) && Pending(t, p, 0)
  {
  }

  lemma EntryKept(t: Tree, mem: map<Slot, Word>, p: Place, i: nat)
    requires p in t.at && MemKept(t, mem, p, i)
    ensures Read(mem, Slot(t.at[p], i)) == Read(t.mem, Slot(t.at[p], i))
  {
  }

  lemma ChildFree(free: seq<Word>, free': seq<Word>, at: map<Place, Word>, order: seq<Place>, p: Place, i: nat)
    requires Pushed(free', free, at, order) && PlacesDiffer(at) && Listed(at, p, i, order) && !p.Low? && i < 512
    requires forall w :: w in free ==> Outside(at, p, w)
    ensures forall w :: w in free' ==> Outside(at, Child(p, i), w)
  {
    hide Pushed;
    forall q | q in at && AtOrBelow(Child(p, i), q)
      ensures AtOrBelow(p, q) && q !in order
    {
      FreedNext(p, q, i);
    }
    FreeOutside(free, free', at, order, p, Child(p, i));
  }

  /** An invalid entry has no part of the tree below it. */
  lemma NothingBelow(t: Tree, t0: Tree, p: Place, i: nat, order: seq<Place>)
    requires p in t.at && PlacesDiffer(t.at) && t0.at == t.at && (p.Low? || Child(p, i) !in t.at) && i < 512
    requires Listed(t.at, p, i, order) && Pending(t, p, i) && MemKept(t0, t.mem, p, i)
    ensures Listed(t.at, p, i + 1, order) && Pending(t, p, i + 1) && MemKept(t0, t.mem, p, i + 1)
  {
    hide NodeOk, Read;
    assert [] + order == order;
    ListedNext(t.at, p, i, order, []);
    forall q | q in t.at
      ensures FreedBefore(p, q, i) ==> FreedBefore(p, q, i + 1)
    {
    }
  }

  lemma FreeWalkEnd(t: Tree, mem: map<Slot, Word>, free: seq<Word>, p: Place, order: seq<Place>)
    requires p in t.at && PlacesDiffer(t.at) && Pushed(free, t.free, t.at, order) && Listed(t.at, p, 512, order) && MemKept(t, mem, p, 512)
    ensures Pushed([t.at[p]] + free, t.free, t.at, [p] + order)
    ensures forall q :: q in [p] + order <==> q in t.at && AtOrBelow(p, q)
    ensures forall s: Slot :: Outside(t.at, p, s.page) ==> Read(mem, s) == Read(t.mem, s)
  {
    hide Read;
    forall q | q in t.at
      ensures AtOrBelow(p, q) <==> q == p || FreedBefore(p, q, 512)
    {
      FreedNext(p, q, 0);
    }
    assert Pushed([t.at[p]] + free, free, t.at, [p]);
    PushedTwice(t.free, free, [t.at[p]] + free, t.at, order, [p]);
  }

  lemma ClearedPte(n: nat)
    ensures PteIn(Nothing, n) == 0
  {
  }

  lemma FilledPte(pa: Word, perm: Word, n: nat)
    ensures PteIn(To(pa, perm), n) == LeafPte(FrameAt(pa, n), perm)
  {
  }

  /** Unmapping what was just mapped gives back the frames in order and restores the map. */
  lemma UnmapUndoesMap(mem: map<Slot, Word>, mem': map<Slot, Word>, mem'': map<Slot, Word>, root: Word, first: nat, n: nat, pa: Word, perm: Word)
    requires MapsRange(mem, mem', root, first, n, To(pa, perm)) && MapsRange(mem', mem'', root, first, n, Nothing)
    requires forall va: nat :: va < MAXVA && first <= va / PGSIZE < first + n ==> PteOf(mem, root, va) == 0
    requires Aligned(pa) && perm < 0x400
    ensures SameMap(mem, mem'', root)
    ensures forall va: nat :: va < MAXVA && first <= va / PGSIZE < first + n ==>
              PTE2PA(PteOf(mem', root, va)) == FrameAt(pa, va / PGSIZE - first)
  {
    hide PteOf, Aligned, PA2PTE, PTE2PA;
    forall va: nat | va < MAXVA
      ensures PteOf(mem'', root, va) == PteOf(mem, root, va)
      ensures first <= va / PGSIZE < first + n ==> PTE2PA(PteOf(mem', root, va)) == FrameAt(pa, va / PGSIZE - first)
    {
      assert PteOf(mem'', root, va) == PteAfter(PteOf(mem', root, va), va / PGSIZE, first, n, Nothing);
      assert PteOf(mem', root, va) == PteAfter(PteOf(mem, root, va), va / PGSIZE, first, n, To(pa, perm));
      if first <= va / PGSIZE < first + n {
        FramesAligned(pa, va / PGSIZE - first);
        LeafRoundTrip(FrameAt(pa, va / PGSIZE - first), perm);
      }
    }
  }

  lemma {:induction false} FramesAligned(pa: Word, n: nat)
    requires Aligned(pa)
    ensures Aligned(FrameAt(pa, n))
  {
    if n > 0 {
      FramesAligned(pa, n - 1);
    }
  }

  lemma LeafRoundTrip(pa: Word, perm: Word)
    requires Aligned(pa) && perm < 0x400
    ensures PTE2PA(LeafPte(pa, perm)) == pa
  {
  }
}

/**
 User pages, the marks in their PTEs and the page-table pages on the way to them, over the state of CowMemory: what each
 step of the calls in kernel/vm.c does to them, how many frames it takes, and that none is lost. Module UserVm has the calls.
 */
module UserPages {
  import opened Collections
  import opened CowMemory

  /** MAXVA and all the memory there is, in pages. */
  const MAXPAGE: nat := 0x400_0000
  const NFRAMES: nat := 0x8000

  // Page-table pages.

  function MidOf(k: Key): Table {
    Mid(k.pid, k.page / 0x4_0000)
  }

  function LowOf(k: Key): Table {
    Low(k.pid, k.page / 0x200)
  }

  /** The page-table pages that walk passes through to reach page k. */
  function Path(k: Key): set<Table> {
    {MidOf(k), LowOf(k)}
  }

  predicate HasPath(tables: map<Table, Frame>, k: Key) {
    MidOf(k) in tables && LowOf(k) in tables
  }

  /** The page that has the entry for page-table page t. */
  predicate HasParent(tables: set<Table>, t: Table) {
    match t
    case Root(_) => true
    case Mid(p, i) => i < 512 && Root(p) in tables
    case Low(p, i) => Mid(p, i / 512) in tables
  }

  predicate Treed(tables: set<Table>) {
    forall t :: t in tables ==> HasParent(tables, t)
  }

  ghost predicate PathsOk(m: Mem) {
    forall k :: k in m.leaf ==> HasPath(m.tables, k)
  }

  ghost predicate WholeFrames(m: Mem) {
    forall f :: f in m.frames ==> |m.frames[f].bytes| == PGSIZE
  }

  /** A frame is mapped at the same address by all who share it, and a COW page cannot be written. */
  ghost predicate InPlace(leaf: map<Key, Pte>) {
    && (forall k, q :: k in leaf && q in leaf && leaf[k].frame == leaf[q].frame ==> k.page == q.page)
    && (forall k :: k in leaf && leaf[k].cow ==> !leaf[k].w)
  }

  /** Conservation and sharing; page tables are trees, and every mapping is reachable by walk. */
  ghost predicate Good(m: Mem) {
    Inv(m) && Treed(m.tables.Keys) && PathsOk(m) && WholeFrames(m) && InPlace(m.leaf)
  }

  /** tables' are tables and nothing else but pages from more. */
  predicate Grew(tables: map<Table, Frame>, tables': map<Table, Frame>, more: set<Table>) {
    && tables.Keys <= tables'.Keys <= tables.Keys + more
    && forall t :: t in tables ==> tables'[t] == tables[t]
  }

  /** No frame has come or gone, and what kernel code holds besides page tables is the same. */
  ghost predicate Kept(m: Mem, m': Mem) {
    m'.frames.Keys == m.frames.Keys && Loose(m') == Loose(m)
  }

  /** The contents of such frames are the same too. */
  ghost predicate HeldSame(m: Mem, m': Mem) {
    forall f :: f in Loose(m) && f in m.frames ==> f in m'.frames && m'.frames[f] == m.frames[f]
  }

  // Marks.

  /** The flags of a leaf PTE. */
  datatype Mark = Mark(r: bool, w: bool, x: bool, u: bool, cow: bool)

  /** What dup_pg gives. */
  const ALL := Mark(true, true, true, true, false)

  function MarkOf(pte: Pte): Mark {
    Mark(pte.r, pte.w, pte.x, pte.u, pte.cow)
  }

  function Marks(leaf: map<Key, Pte>): map<Key, Mark> {
    map k | k in leaf :: MarkOf(leaf[k])
  }

  /** The pages that share their frame with no other. */
  function Alone(leaf: map<Key, Pte>): set<Key> {
    set k | k in leaf && RefsTo(leaf, leaf[k].frame) == {k}
  }

  // What single steps keep.

  lemma PopGood(m: Mem)
    requires Good(m) && m.freelist != []
    ensures var f, m' := m.freelist[0], Popped(m);
            && Good(m') && View(m') == View(m) && HeldSame(m, m')
            && m'.frames.Keys == m.frames.Keys && Loose(m') == Loose(m) + {f} && f !in Loose(m)
  {
    hide Treed;
    PopKeeps(m);
    var f := m.freelist[0];
    assert f in m.freelist;
    UnmappedFrame(m, f);
    assert FrameOk(m, f);
    assert f !in m.kernel && m.tables.Values <= m.kernel;
  }

  /** kalloc, memset to zero, and use as page-table page t. */
  ghost function NewTable(m: Mem, t: Table): Mem
    requires m.freelist != []
  {
    var f := m.freelist[0];
    var m1 := Popped(m);
    m1.(frames := m1.frames[f := Filled(0)], tables := m1.tables[t := f])
  }

  lemma TableLoose(m: Mem, t: Table, f: Frame)
    requires t !in m.tables
    ensures Loose(m.(tables := m.tables[t := f])) == Loose(m) - {f}
  {
    var tables := m.tables[t := f];
    assert tables.Values == m.tables.Values + {f} by {
      assert tables[t] == f;
      forall g | g in m.tables.Values
        ensures g in tables.Values
      {
        var u :| u in m.tables && m.tables[u] == g;
        assert tables[u] == g;
      }
    }
  }

  lemma NewTableGood(m: Mem, t: Table)
    requires Good(m) && m.freelist != [] && t !in m.tables && HasParent(m.tables.Keys, t)
    ensures var m' := NewTable(m, t); Good(m') && View(m') == View(m) && Kept(m, m') && HeldSame(m, m')
  {
    PopGood(m);
    var f, m1 := m.freelist[0], Popped(m);
    ZeroedGood(m1, f);
    var m2 := m1.(frames := m1.frames[f := Filled(0)]);
    TableGood(m2, t, f);
  }

  lemma TableGood(m: Mem, t: Table, f: Frame)
    requires Good(m) && Held(m, f) && t !in m.tables && HasParent(m.tables.Keys, t)
    ensures var m' := m.(tables := m.tables[t := f]);
            Good(m') && View(m') == View(m) && Loose(m') == Loose(m) - {f}
  {
    hide Inv, View, WholeFrames, InPlace, Loose;
    TableKeeps(m, t, f);
    TableLoose(m, t, f);
    var tables := m.tables[t := f];
    assert Treed(tables.Keys) by {
      forall u | u in tables
        ensures HasParent(tables.Keys, u)
      {
        assert HasParent(m.tables.Keys, u);
      }
    }
    assert WholeFrames(m.(tables := tables)) by {
      WholeSame(m, m.(tables := tables));
    }
  }

  lemma WholeSame(m: Mem, m': Mem)
    requires WholeFrames(m) && m'.frames == m.frames
    ensures WholeFrames(m')
  {
  }

  lemma ZeroedGood(m: Mem, f: Frame)
    requires Good(m) && Held(m, f)
    ensures var m' := m.(frames := m.frames[f := Filled(0)]);
            Good(m') && View(m') == View(m) && Kept(m, m')
  {
    hide Treed, InPlace;
    CopyIntoOwned(m, f, Filled(0));
  }

  lemma FreshPlace(leaf: map<Key, Pte>, k: Key, pte: Pte)
    requires InPlace(leaf) && pte.frame !in MappedFrames(leaf) && !(pte.cow && pte.w)
    ensures InPlace(leaf[k := pte])
  {
    forall q | q in leaf
      ensures leaf[q].frame != pte.frame
    {
      assert leaf[q].frame in MappedFrames(leaf);
    }
  }

  lemma SharedPlace(leaf: map<Key, Pte>, k: Key, c: Key, pte: Pte)
    requires InPlace(leaf) && k in leaf && c.page == k.page && pte.frame == leaf[k].frame && !(pte.cow && pte.w)
    ensures InPlace(leaf[c := pte])
  {
  }

  lemma MapFreshGood(m: Mem, k: Key, pte: Pte)
    requires Good(m) && k !in m.leaf && Held(m, pte.frame) && HasPath(m.tables, k) && !(pte.cow && pte.w)
    ensures var m' := Mapped(m, k, pte);
            Good(m') && View(m') == View(m)[k := m.frames[pte.frame]] && Loose(m') == Loose(m) - {pte.frame}
  {
    hide Inv, View, InPlace, Treed, MappedFrames;
    HeldFrame(m, pte.frame);
    MapFreshKeeps(m, k, pte);
    FreshPlace(m.leaf, k, pte);
  }

  lemma FreeOwnedGood(m: Mem, f: Frame)
    requires Good(m) && Held(m, f)
    ensures f in m.count && m.count[f] == 0
    ensures var m' := Freed(m, f);
            && Good(m') && View(m') == View(m) && m'.leaf == m.leaf && m'.tables == m.tables
            && m'.frames.Keys == m.frames.Keys && Loose(m') == Loose(m) - {f} && |m'.freelist| == |m.freelist| + 1
  {
    hide Treed, InPlace;
    UnmappedFrame(m, f);
    FreeOwnedKeeps(m, f);
  }

  /** Before kinit every frame is the kernel's. */
  lemma AllHeldGood(m: Mem)
    requires m.freelist == [] && m.leaf == map[] && m.tables == map[]
    requires m.kernel == m.frames.Keys == m.count.Keys
    requires (forall f :: f in m.frames ==> m.frames[f] == Filled(0)) && (forall f :: f in m.count ==> m.count[f] == 0)
    ensures Good(m) && Loose(m) == m.kernel
  {
    forall f | f in m.frames
      ensures FrameOk(m, f)
    {
      assert RefsTo(m.leaf, f) == {};
    }
    assert m.tables.Values == {};
  }

  lemma UnmapGood(m: Mem, k: Key)
    requires Good(m) && k in m.leaf
    ensures m.leaf[k].frame in m.count
    ensures var m' := Unmapped(m, k);
            && Good(m') && View(m') == View(m) - {k} && m'.leaf == m.leaf - {k} && m'.tables == m.tables && Kept(m, m')
  {
    hide FrameOk, SharedIsCow, FreeOk, KernelOk, View, Treed, RefsTo;
    UnmapKeeps(m, k);
    MappedFrame(m, k);
  }

  lemma FlagGood(m: Mem, k: Key, pte: Pte)
    requires Good(m) && k in m.leaf && pte.frame == m.leaf[k].frame && !(pte.cow && pte.w)
    requires pte.w || !pte.cow ==> m.leaf[k].w || !m.leaf[k].cow
    ensures var m' := Flagged(m, k, pte); Good(m') && View(m') == View(m) && Kept(m, m')
  {
    hide Inv, View, InPlace, Treed;
    FlagKeeps(m, k, pte);
    SharedPlace(m.leaf, k, k, pte);
  }

  lemma ShareGood(m: Mem, k: Key, c: Key)
    requires Good(m) && k in m.leaf && c !in m.leaf && m.leaf[k].cow && !m.leaf[k].w && HasPath(m.tables, c)
    requires c.page == k.page
    ensures m.leaf[k].frame in m.count && m.leaf[k].frame !in m.kernel
    ensures var m' := Shared(m, k, c); Good(m') && View(m') == View(m)[c := View(m)[k]] && Kept(m, m')
  {
    hide Inv, View, InPlace, Treed, RefsTo;
    ShareKeeps(m, k, c);
    SharedPlace(m.leaf, k, c, m.leaf[k]);
    MappedFrame(m, k);
  }

  /** dup_pg, once it has a frame f to itself. */
  lemma PrivatiseGood(m: Mem, k: Key, f: Frame)
    requires Good(m) && k in m.leaf && Held(m, f)
    ensures m.leaf[k].frame in m.frames && m.leaf[k].frame in m.count
    ensures var m' := Privatised(m, k, f);
            && Good(m') && View(m') == View(m) && m'.tables == m.tables
            && m'.leaf == m.leaf[k := Pte(f, true, true, true, true, false)]
            && m'.frames.Keys == m.frames.Keys && Loose(m') == Loose(m) - {f}
            && |m'.freelist| == |m.freelist| + (if k in Alone(m.leaf) then 1 else 0)
  {
    hide Inv, View, Treed, Alone, InPlace, RefsTo, MappedFrames, Privatised;
    MappedFrame(m, k);
    HeldFrame(m, f);
    PrivatiseKeeps(m, k, f);
    PrivatiseFields(m, k, f);
    FreshPlace(m.leaf, k, Pte(f, true, true, true, true, false));
    assert PathsOk(Privatised(m, k, f));
    AloneCount(m, k);
    PrivatiseLoose(m, k, f);
  }

  lemma PrivatiseFields(m: Mem, k: Key, f: Frame)
    requires k in m.leaf && m.leaf[k].frame in m.frames && m.leaf[k].frame in m.count && f in m.frames && WholeFrames(m)
    ensures var m' := Privatised(m, k, f);
            && m'.tables == m.tables && m'.frames.Keys == m.frames.Keys
            && m'.leaf == m.leaf[k := Pte(f, true, true, true, true, false)]
            && WholeFrames(m')
            && |m'.freelist| == |m.freelist| + (if m.count[m.leaf[k].frame] == 0 then 1 else 0)
  {
  }

  lemma PrivatiseLoose(m: Mem, k: Key, f: Frame)
    requires Inv(m) && k in m.leaf && m.leaf[k].frame in m.frames && m.leaf[k].frame in m.count
    ensures Loose(Privatised(m, k, f)) == Loose(m) - {f}
  {
    hide Inv, RefsTo;
    MappedFrame(m, k);
  }

  lemma AloneCount(m: Mem, k: Key)
    requires Inv(m) && k in m.leaf
    ensures m.leaf[k].frame in m.count && (k in Alone(m.leaf) <==> m.count[m.leaf[k].frame] == 0)
  {
    MappedFrame(m, k);
    var refs := RefsTo(m.leaf, m.leaf[k].frame);
    assert FrameOk(m, m.leaf[k].frame);
    if |refs| == 1 {
      assert refs == {k} by {
        if q :| q in refs && q != k {
          CardinalityTwo(refs, k, q);
        }
      }
    }
  }

  lemma FreeTableGood(m: Mem, t: Table)
    requires Good(m) && t in m.tables && (forall k :: k in m.leaf ==> k.pid != t.pid)
    requires forall u :: u in m.tables && u != t ==> HasParent(m.tables.Keys - {t}, u)
    ensures m.tables[t] in m.count && m.count[m.tables[t]] == 0
    ensures var m' := Freed(m.(tables := m.tables - {t}), m.tables[t]);
            && Good(m') && View(m') == View(m) && m'.leaf == m.leaf && m'.tables == m.tables - {t} && Kept(m, m')
            && |m'.freelist| == |m.freelist| + 1
  {
    hide View, FrameOk, SharedIsCow, FreeOk, LeafOk, InPlace;
    UnmappedFrame(m, m.tables[t]);
    FreeTableKeeps(m, t);
    ValuesWithout(m.tables, t);
    assert Treed((m.tables - {t}).Keys) by {
      assert (m.tables - {t}).Keys == m.tables.Keys - {t};
    }
  }

  lemma StoreGood(m: Mem, k: Key, page: Page)
    requires Good(m) && k in m.leaf && (m.leaf[k].w || !m.leaf[k].cow) && |page.bytes| == PGSIZE
    ensures var m' := Stored(m, k, page); Good(m') && View(m') == View(m)[k := page] && Kept(m, m')
  {
    hide FrameOk, SharedIsCow, FreeOk, KernelOk, View, Treed, InPlace;
    StoreKeeps(m, k, page);
  }

  predicate IsCow(leaf: map<Key, Pte>, k: Key) {
    k in leaf && leaf[k].cow
  }

  /** The state after dup_pg has given page k the first free frame. */
  ghost function Duplicated(m: Mem, k: Key): Mem
    requires m.freelist != [] && k in m.leaf && m.leaf[k].frame in m.frames && m.leaf[k].frame in m.count
  {
    Privatised(Popped(m), k, m.freelist[0])
  }

  lemma DuplicateDefined(m: Mem, k: Key)
    requires Good(m) && k in m.leaf
    ensures m.leaf[k].frame in m.frames && m.leaf[k].frame in m.count && m.leaf[k].frame !in m.freelist
  {
    MappedFrame(m, k);
  }

  lemma DuplicateGood(m: Mem, k: Key)
    requires Good(m) && k in m.leaf && m.freelist != []
    ensures m.leaf[k].frame in m.frames && m.leaf[k].frame in m.count
    ensures var m' := Duplicated(m, k);
            && Good(m') && View(m') == View(m) && m'.tables == m.tables && Kept(m, m')
            && m'.leaf == m.leaf[k := Pte(m.freelist[0], true, true, true, true, false)]
            && |m'.freelist| == |m.freelist| - (if k in Alone(m.leaf) then 0 else 1)
  {
    hide Good, View, Alone, Loose;
    DuplicateDefined(m, k);
    PopGood(m);
    PrivatiseGood(Popped(m), k, m.freelist[0]);
    assert Loose(m) + {m.freelist[0]} - {m.freelist[0]} == Loose(m);
  }

  /** dup_pg changes nothing at the other pages of the process. */
  lemma DuplicateOthers(m: Mem, k: Key)
    requires Good(m) && k in m.leaf && m.freelist != []
    ensures var leaf' := m.leaf[k := Pte(m.freelist[0], true, true, true, true, false)];
            SameBut(Marks(m.leaf), Alone(m.leaf), Marks(leaf'), Alone(leaf'), k.pid, k.page)
  {
    hide Good, Alone;
    var leaf' := m.leaf[k := Pte(m.freelist[0], true, true, true, true, false)];
    forall q: Key | q.pid == k.pid && q.page != k.page
      ensures SameAt(Marks(m.leaf), Alone(m.leaf), Marks(leaf'), Alone(leaf'), q)
    {
      if q in m.leaf {
        DuplicateNeighbour(m, k, q);
      } else {
        AloneMapped(m.leaf);
        AloneMapped(leaf');
      }
    }
  }

  lemma AloneMapped(leaf: map<Key, Pte>)
    ensures Alone(leaf) <= leaf.Keys
  {
  }

  /** A page of the same process shares its frame with as many after its neighbour's duplication as before. */
  lemma DuplicateNeighbour(m: Mem, k: Key, q: Key)
    requires Good(m) && k in m.leaf && m.freelist != [] && q in m.leaf && q.pid == k.pid && q != k
    ensures var leaf' := m.leaf[k := Pte(m.freelist[0], true, true, true, true, false)];
            q in leaf' && (q in Alone(leaf') <==> q in Alone(m.leaf))
  {
    hide Inv, PathsOk, Treed, WholeFrames, RefsTo;
    var leaf' := m.leaf[k := Pte(m.freelist[0], true, true, true, true, false)];
    MappedFrame(m, q);
    assert m.freelist[0] in m.freelist;
    RefsElsewhere(m.leaf, leaf', k, m.leaf[q].frame);
  }

  lemma CowReadOnly(m: Mem, k: Key)
    requires Good(m) && k in m.leaf
    ensures !(m.leaf[k].cow && m.leaf[k].w)
  {
  }

  lemma GoodLeaf(m: Mem)
    requires Good(m)
    ensures LeafOk(m)
  {
  }

  lemma PathOf(m: Mem, k: Key)
    requires Good(m) && k in m.leaf
    ensures HasPath(m.tables, k)
  {
  }

  // Walking.

  /** The page-table pages that walk has passed at the given level. */
  function Walked(k: Key, level: int): set<Table> {
    if level >= 2 then {} else if level == 1 then {MidOf(k)} else Path(k)
  }

  /** What walk has done when it gets to the given level. */
  ghost predicate Passed(m: Mem, m': Mem, k: Key, level: int) {
    Walks(m, m', Path(k)) && m'.tables.Keys == m.tables.Keys + Walked(k, level)
  }

  lemma PassedStart(m: Mem, k: Key)
    requires Good(m)
    ensures Passed(m, m, k, 2)
  {
    hide Walks;
    WalksSelf(m, Path(k));
  }

  lemma PassedParent(m: Mem, m': Mem, k: Key, level: int)
    requires Passed(m, m', k, level) && 1 <= level <= 2
    ensures Good(m')
    ensures k.page < MAXPAGE && Root(k.pid) in m.tables ==> HasParent(m'.tables.Keys, if level == 2 then MidOf(k) else LowOf(k))
  {
    hide Walks, MidOf, LowOf, HasParent;
    WalksGood(m, m', Path(k));
    if k.page < MAXPAGE && Root(k.pid) in m.tables {
      ParentOf(k, level, m'.tables.Keys);
    }
  }

  lemma ParentOf(k: Key, level: int, tables: set<Table>)
    requires k.page < MAXPAGE && Root(k.pid) in tables && 1 <= level <= 2 && (level == 1 ==> MidOf(k) in tables)
    ensures HasParent(tables, if level == 2 then MidOf(k) else LowOf(k))
  {
  }

  lemma PassedNext(m0: Mem, m: Mem, m': Mem, k: Key, level: int)
    requires 1 <= level <= 2 && Passed(m0, m, k, level)
    requires var t := if level == 2 then MidOf(k) else LowOf(k);
             Walks(m, m', {t}) && m'.tables.Keys == m.tables.Keys + {t}
    ensures Passed(m0, m', k, level - 1)
  {
    hide Walks, MidOf, LowOf;
    WalksOn(m0, m, m', {if level == 2 then MidOf(k) else LowOf(k)}, Path(k));
  }

  /** Walk has used as many frames as there were pages missing. */
  lemma PassedEnds(m: Mem, m': Mem, k: Key)
    requires Passed(m, m', k, 0)
    ensures Walks(m, m', Path(k)) && m'.tables.Keys == m.tables.Keys + Path(k) && HasPath(m'.tables, k)
    ensures |Path(k) - m.tables.Keys| <= |m.freelist|
    ensures m' == m ==> |Path(k) - m.tables.Keys| == 0
  {
    hide Walks, MidOf, LowOf, Path;
    WalksGood(m, m', Path(k));
    MissingAll(m.tables.Keys, m'.tables.Keys, Path(k));
    HasPathMeans(m'.tables, k);
  }

  lemma HasPathMeans(tables: map<Table, Frame>, k: Key)
    ensures HasPath(tables, k) <==> Path(k) <= tables.Keys
  {
  }

  lemma MissingAll(was: set<Table>, now: set<Table>, path: set<Table>)
    requires now == was + path
    ensures |now| == |was| + |path - was| && path <= now
  {
    PartSize(now, was);
    assert now - was == path - was;
  }

  lemma MissingSome(was: set<Table>, now: set<Table>, done: set<Table>, path: set<Table>, t: Table)
    requires now == was + done && done <= path && t in path && t !in now
    ensures |now| == |was| + |done - was| && |done - was| < |path - was| && !(path <= now)
  {
    PartSize(now, was);
    assert now - was == done - was;
    SubsetSize((done - was) + {t}, path - was);
  }

  /** One page short, walk fails. */
  lemma PassedFails(m: Mem, m': Mem, k: Key, level: int, alloc: bool)
    requires 1 <= level <= 2 && Passed(m, m', k, level) && (if alloc then m'.freelist == [] else m' == m)
    requires (if level == 2 then MidOf(k) else LowOf(k)) !in m'.tables
    ensures Walks(m, m', Path(k)) && !HasPath(m'.tables, k)
    ensures |Path(k) - m.tables.Keys| > if alloc then |m.freelist| else 0
  {
    hide Walks, MidOf, LowOf;
    WalksGood(m, m', Path(k));
    MissingSome(m.tables.Keys, m'.tables.Keys, Walked(k, level), Path(k), if level == 2 then MidOf(k) else LowOf(k));
    HasPathMeans(m'.tables, k);
  }

  lemma KeptSelf(m: Mem)
    ensures Kept(m, m)
  {
  }

  lemma GrewSelf(tables: map<Table, Frame>, more: set<Table>)
    ensures Grew(tables, tables, more)
  {
  }

  lemma KeptTwice(m0: Mem, m: Mem, m': Mem)
    requires Kept(m0, m) && Kept(m, m')
    ensures Kept(m0, m')
  {
  }

  lemma PageStart(va: nat)
    ensures (va - va % PGSIZE) / PGSIZE == va / PGSIZE && (va - va % PGSIZE < MAXVA <==> va < MAXVA)
    ensures va - va % PGSIZE == 0 <==> va < PGSIZE
  {
  }

  /** From m to m' nothing but page-table pages from more has been added; every other frame taken has been given back. */
  ghost predicate Unseen(m: Mem, m': Mem, more: set<Table>) {
    && Good(m) && Good(m') && View(m') == View(m) && Kept(m, m')
    && m'.leaf == m.leaf && Grew(m.tables, m'.tables, more)
    && |m'.freelist| + |m'.tables.Keys| == |m.freelist| + |m.tables.Keys|
  }

  ghost predicate Walks(m: Mem, m': Mem, more: set<Table>) {
    Unseen(m, m', more) && HeldSame(m, m')
  }

  lemma WalksSelf(m: Mem, more: set<Table>)
    requires Good(m)
    ensures Walks(m, m, more)
  {
    hide Good, View;
  }

  lemma WalksGood(m: Mem, m': Mem, more: set<Table>)
    requires Walks(m, m', more)
    ensures Good(m') && m.tables.Keys <= m'.tables.Keys
    ensures |m'.freelist| + |m'.tables.Keys| == |m.freelist| + |m.tables.Keys|
  {
    hide Good, View, Kept, HeldSame;
  }

  lemma WalksOn(m0: Mem, m: Mem, m': Mem, some: set<Table>, more: set<Table>)
    requires Walks(m0, m, more) && Walks(m, m', some) && some <= more
    ensures Walks(m0, m', more)
  {
    hide Good, View, Loose, Grew;
    GrewOn(m0.tables, m.tables, m'.tables, some, more);
  }

  lemma GrewOn(tables: map<Table, Frame>, tables1: map<Table, Frame>, tables2: map<Table, Frame>,
               some: set<Table>, more: set<Table>)
    requires Grew(tables, tables1, more) && Grew(tables1, tables2, some) && some <= more
    ensures Grew(tables, tables2, more)
  {
  }

  lemma NewTableWalks(m: Mem, t: Table)
    requires Good(m) && m.freelist != [] && t !in m.tables && HasParent(m.tables.Keys, t)
    ensures Walks(m, NewTable(m, t), {t}) && NewTable(m, t).tables.Keys == m.tables.Keys + {t}
  {
    hide Good, View, Kept, HeldSame, NewTable, Grew;
    NewTableGood(m, t);
    NewTableCounts(m, t);
  }

  lemma NewTableCounts(m: Mem, t: Table)
    requires m.freelist != [] && t !in m.tables
    ensures var m' := NewTable(m, t);
            && m'.leaf == m.leaf && m'.tables.Keys == m.tables.Keys + {t}
            && |m'.freelist| == |m.freelist| - 1
            && Grew(m.tables, m'.tables, {t})
  {
    hide Filled;
  }

  // Ranges of pages.

  function Pages(sz: nat): nat {
    (sz + PGSIZE - 1) / PGSIZE
  }

  /** The pages first to first + n - 1 of process p. */
  function Range(p: Pid, first: nat, n: int): set<Key> {
    set v | first <= v < first + n :: Key(p, v)
  }

  lemma RangeStep(p: Pid, first: nat, n: nat)
    ensures Range(p, first, n + 1) == Range(p, first, n) + {Key(p, first + n)} && Key(p, first + n) !in Range(p, first, n)
  {
  }

  lemma RangeWithin(p: Pid, first: nat, n: nat, m: nat)
    requires n <= m
    ensures Range(p, first, n) <= Range(p, first, m)
    ensures n < m ==> Key(p, first + n) in Range(p, first, m)
  {
  }

  /** The page-table pages on the way to a range of pages. */
  function Paths(p: Pid, first: nat, n: int): set<Table> {
    (set k | k in Range(p, first, n) :: MidOf(k)) + (set k | k in Range(p, first, n) :: LowOf(k))
  }

  lemma PathsStep(p: Pid, first: nat, n: nat)
    ensures Paths(p, first, n + 1) == Paths(p, first, n) + Path(Key(p, first + n))
  {
    hide Range, MidOf, LowOf;
    RangeStep(p, first, n);
    var k := Key(p, first + n);
    assert (set q | q in Range(p, first, n + 1) :: MidOf(q)) == (set q | q in Range(p, first, n) :: MidOf(q)) + {MidOf(k)};
    assert (set q | q in Range(p, first, n + 1) :: LowOf(q)) == (set q | q in Range(p, first, n) :: LowOf(q)) + {LowOf(k)};
  }

  lemma NoPaths(p: Pid, first: nat, n: int)
    requires n <= 0
    ensures Range(p, first, n) == {} && Paths(p, first, n) == {}
  {
    assert Range(p, first, n) == {};
  }

  lemma PathsWithin(p: Pid, first: nat, n: nat, m: nat)
    requires n <= m
    ensures Paths(p, first, n) <= Paths(p, first, m)
  {
    hide MidOf, LowOf;
    RangeWithin(p, first, n, m);
  }

  /** A process has as many pages mapped as frames behind them. */
  lemma PagesMapped(leaf: map<Key, Pte>, p: Pid, n: nat)
    requires InPlace(leaf) && Range(p, 0, n) <= leaf.Keys
    ensures n <= |MappedFrames(leaf)|
  {
    forall i | 0 <= i < n
      ensures Key(p, i) in leaf
    {
      assert Key(p, i) in Range(p, 0, n);
    }
    var at := map i: nat | i in Below(n) :: leaf[Key(p, i)].frame;
    assert Injective(at);
    ValuesSize(at);
    BelowSize(n);
    assert at.Keys == Below(n);
    SubsetSize(at.Values, MappedFrames(leaf));
  }

  /** So a process never has more pages than there are frames, and fewer while there is a frame in some other use. */
  lemma PagesFit(m: Mem, p: Pid, n: nat)
    requires Good(m) && Range(p, 0, n) <= m.leaf.Keys
    ensures n <= |m.frames.Keys| && (Loose(m) != {} ==> n < |m.frames.Keys|)
  {
    hide Inv, Treed, Range, Loose, MappedFrames;
    FramesCounted(m);
    PagesMapped(m.leaf, p, n);
  }

  // Views.

  /** What is known of the pages, after the first n of p have been copied to c. */
  function Forked<V>(v: map<Key, V>, p: Pid, c: Pid, n: nat): map<Key, V> {
    v + map k | k in Range(c, 0, n) && Key(p, k.page) in v :: v[Key(p, k.page)]
  }

  lemma ForkedNothing<V>(v: map<Key, V>, p: Pid, c: Pid)
    ensures Forked(v, p, c, 0) == v
  {
    assert Range(c, 0, 0) == {};
  }

  lemma ForkedStep<V>(v: map<Key, V>, p: Pid, c: Pid, n: nat)
    requires Range(p, 0, n + 1) <= v.Keys && Range(c, 0, n + 1) !! v.Keys
    ensures Key(p, n) in v
    ensures Forked(v, p, c, n)[Key(p, n)] == v[Key(p, n)]
    ensures Forked(v, p, c, n + 1) == Forked(v, p, c, n)[Key(c, n) := v[Key(p, n)]]
  {
    RangeStep(p, 0, n);
    RangeStep(c, 0, n);
  }

  lemma ForkedUndo<V>(v: map<Key, V>, p: Pid, c: Pid, n: nat)
    requires Range(p, 0, n) <= v.Keys && Range(c, 0, n) !! v.Keys
    ensures Forked(v, p, c, n) - Range(c, 0, n) == v
  {
  }

  /** What is known of the pages, with n new ones of p from page first on. */
  function Grown<V>(v: map<Key, V>, p: Pid, first: nat, n: int, blank: V): map<Key, V> {
    v + map k | k in Range(p, first, n) :: blank
  }

  lemma GrownNothing<V>(v: map<Key, V>, p: Pid, first: nat, n: int, blank: V)
    requires n <= 0
    ensures Grown(v, p, first, n, blank) == v
  {
    assert Range(p, first, n) == {};
  }

  lemma GrownStep<V>(v: map<Key, V>, p: Pid, first: nat, n: nat, blank: V)
    ensures Grown(v, p, first, n + 1, blank) == Grown(v, p, first, n, blank)[Key(p, first + n) := blank]
  {
    RangeStep(p, first, n);
  }

  /** Unmapping what was just mapped gives back the old views. */
  lemma GrownUndo<V>(v: map<Key, V>, v0: map<Key, V>, p: Pid, first: nat, n: nat, blank: V)
    requires Range(p, first, n) !! v0.Keys && v == Grown(v0, p, first, n, blank)
    ensures v - Range(p, first, n) == v0
  {
  }

  lemma ViewKeys(m: Mem)
    requires Good(m)
    ensures View(m).Keys == m.leaf.Keys
  {
  }

  lemma WholeViews(m: Mem)
    requires Good(m)
    ensures WholePages(View(m))
  {
    hide Treed, FrameOk, SharedIsCow;
  }

  // Marks under fork and growth.

  function Cowed(k: Mark): Mark {
    k.(w := false, cow := true)
  }

  /** The first n pages of p marked. */
  function CowedMarks(marks: map<Key, Mark>, p: Pid, n: nat): map<Key, Mark> {
    map k | k in marks :: if k in Range(p, 0, n) then Cowed(marks[k]) else marks[k]
  }

  /** And the same in child c. */
  function ForkedMarks(marks: map<Key, Mark>, p: Pid, c: Pid, n: nat): map<Key, Mark> {
    Forked(CowedMarks(marks, p, n), p, c, n)
  }

  lemma ForkedMarksNothing(marks: map<Key, Mark>, p: Pid, c: Pid)
    ensures ForkedMarks(marks, p, c, 0) == marks == CowedMarks(marks, p, 0)
  {
    assert Range(c, 0, 0) == {} && Range(p, 0, 0) == {};
  }

  lemma CowedStep(marks: map<Key, Mark>, p: Pid, n: nat)
    requires Key(p, n) in marks
    ensures var was := CowedMarks(marks, p, n);
            was[Key(p, n)] == marks[Key(p, n)] && CowedMarks(marks, p, n + 1) == was[Key(p, n) := Cowed(marks[Key(p, n)])]
  {
    RangeStep(p, 0, n);
  }

  /** A change past what has been copied. */
  lemma ForkedApart<V>(v: map<Key, V>, p: Pid, c: Pid, n: nat, x: V)
    requires p != c
    ensures Forked(v[Key(p, n) := x], p, c, n) == Forked(v, p, c, n)[Key(p, n) := x]
  {
  }

  lemma ForkedMarksStep(marks: map<Key, Mark>, p: Pid, c: Pid, n: nat)
    requires Range(p, 0, n + 1) <= marks.Keys && Range(c, 0, n + 1) !! marks.Keys
    ensures var k, was := Key(p, n), ForkedMarks(marks, p, c, n);
            && k in marks && k in was && was[k] == marks[k]
            && ForkedMarks(marks, p, c, n + 1) == was[k := Cowed(marks[k])][Key(c, n) := Cowed(marks[k])]
            && was[k := Cowed(marks[k])] - Range(c, 0, n) == CowedMarks(marks, p, n + 1)
  {
    var k := Key(p, n);
    assert k in Range(p, 0, n + 1) && Key(c, n) in Range(c, 0, n + 1);
    RangeWithin(p, 0, n, n + 1);
    RangeWithin(c, 0, n, n + 1);
    var cowed, cowed' := CowedMarks(marks, p, n), CowedMarks(marks, p, n + 1);
    assert cowed.Keys == marks.Keys == cowed'.Keys;
    hide CowedMarks, Forked, Range;
    CowedStep(marks, p, n);
    ForkedApart(cowed, p, c, n, Cowed(marks[k]));
    ForkedStep(cowed', p, c, n);
    ForkedUndo(cowed', p, c, n);
    ForkedKeeps(cowed, p, c, n, k);
  }

  lemma ForkedKeeps<V>(v: map<Key, V>, p: Pid, c: Pid, n: nat, k: Key)
    requires k in v && k !in Range(c, 0, n)
    ensures k in Forked(v, p, c, n) && Forked(v, p, c, n)[k] == v[k]
  {
  }

  /** The mark of a page that uvmalloc maps. */
  function NewMark(w: bool, x: bool): Mark {
    Mark(true, w, x, true, false)
  }

  lemma MarksSet(leaf: map<Key, Pte>, k: Key, pte: Pte)
    ensures Marks(leaf[k := pte]) == Marks(leaf)[k := MarkOf(pte)]
  {
  }

  lemma MarksDrop(leaf: map<Key, Pte>, r: set<Key>)
    ensures Marks(leaf - r) == Marks(leaf) - r
  {
  }

  // Writing.

  predicate Readable(marks: map<Key, Mark>, p: Pid, va: nat) {
    va < MAXVA && Key(p, va / PGSIZE) in marks && marks[Key(p, va / PGSIZE)].u
  }

  function ByteAt(v: map<Key, Page>, p: Pid, va: nat): int
    requires Key(p, va / PGSIZE) in v
  {
    var bytes := v[Key(p, va / PGSIZE)].bytes;
    if va % PGSIZE < |bytes| then bytes[va % PGSIZE] else 0
  }

  /** memmove into a private page is a write by its process and nobody else. */
  lemma StoreChunk(m: Mem, p: Pid, va: nat, chunk: seq<int>)
    requires Good(m) && va % PGSIZE + |chunk| <= PGSIZE
    requires var k := Key(p, va / PGSIZE); k in m.leaf && (m.leaf[k].w || !m.leaf[k].cow)
    ensures var k := Key(p, va / PGSIZE);
            && m.leaf[k].frame in m.frames
            && var m' := Stored(m, k, Patch(m.frames[m.leaf[k].frame], k.page * PGSIZE, va, chunk));
            Good(m') && View(m') == Write(View(m), p, va, chunk) && Kept(m, m')
  {
    hide FrameOk, SharedIsCow, FreeOk, KernelOk, Treed, InPlace, PathsOk, RefsTo, Write;
    var k := Key(p, va / PGSIZE);
    MappedFrame(m, k);
    StoreGood(m, k, Patch(m.frames[m.leaf[k].frame], k.page * PGSIZE, va, chunk));
    WholeViews(m);
    WriteOnePage(View(m), p, va, chunk);
  }

  /** What copyout wrote is what copyin reads. */
  lemma ReadsBackWrite(v: map<Key, Page>, p: Pid, va: nat, bytes: seq<int>, i: nat)
    requires WholePages(v) && i < |bytes| && Key(p, (va + i) / PGSIZE) in v
    ensures ByteAt(Write(v, p, va, bytes), p, va + i) == bytes[i]
  {
    var a := va + i;
    assert a / PGSIZE * PGSIZE + a % PGSIZE == a;
  }

  /** The n bytes from va on have one in that page. */
  predicate Touches(page: nat, va: nat, n: nat) {
    n > 0 && va / PGSIZE <= page <= (va + n - 1) / PGSIZE
  }

  /** The COW pages that were written have become private. */
  function WrittenMarks(marks: map<Key, Mark>, p: Pid, va: nat, n: nat): map<Key, Mark> {
    map k | k in marks :: if k.pid == p && Touches(k.page, va, n) && marks[k].cow then ALL else marks[k]
  }

  lemma WrittenMarksNothing(marks: map<Key, Mark>, p: Pid, va: nat)
    ensures WrittenMarks(marks, p, va, 0) == marks
  {
  }

  lemma WrittenMarksMore(marks: map<Key, Mark>, p: Pid, va: nat, n: nat, more: nat)
    requires more > 0 && (va + n) % PGSIZE + more <= PGSIZE && (n > 0 ==> (va + n) % PGSIZE == 0)
    ensures var k, was := Key(p, (va + n) / PGSIZE), WrittenMarks(marks, p, va, n);
            && (k in marks ==> was[k] == marks[k])
            && WrittenMarks(marks, p, va, n + more) == if k in marks && marks[k].cow then was[k := ALL] else was
  {
    var k := Key(p, (va + n) / PGSIZE);
    forall q | q in marks && q.pid == p
      ensures Touches(q.page, va, n + more) <==> Touches(q.page, va, n) || q.page == k.page
      ensures !Touches(k.page, va, n)
    {
      TouchesMore(q.page, va, n, more);
      TouchesMore(k.page, va, n, more);
    }
  }

  lemma TouchesMore(page: nat, va: nat, n: nat, more: nat)
    requires more > 0 && (va + n) % PGSIZE + more <= PGSIZE && (n > 0 ==> (va + n) % PGSIZE == 0)
    ensures Touches(page, va, n + more) <==> Touches(page, va, n) || page == (va + n) / PGSIZE
    ensures !Touches((va + n) / PGSIZE, va, n)
  {
    assert (va + n + more - 1) / PGSIZE == (va + n) / PGSIZE;
    if n > 0 {
      assert (va + n - 1) / PGSIZE == (va + n) / PGSIZE - 1;
    }
  }

  /** A user store succeeds, if need be after dup_pg. */
  predicate CanStore(marks: map<Key, Mark>, free: nat, p: Pid, va: nat) {
    var k := Key(p, va / PGSIZE);
    Readable(marks, p, va) && if marks[k].cow then va != 0 && free > 0 else marks[k].w
  }

  // How far copyout gets.

  /** A page that copyout does not write, whatever frames there are: page 0, or no user page. */
  predicate Denied(marks: map<Key, Mark>, p: Pid, va: nat) {
    va < PGSIZE || !Readable(marks, p, va)
  }

  /** The bytes from va on that are in one page. */
  function Chunk(va: nat, len: nat): (n: nat)
    ensures len > 0 ==> 0 < n <= len
  {
    if PGSIZE - va % PGSIZE > len then len else PGSIZE - va % PGSIZE
  }

  /** The frames that privatising a page uses up: none if it was not shared, since then its old frame is freed. */
  function Takes(marks: map<Key, Mark>, alone: set<Key>, k: Key): nat {
    if k in marks && marks[k].cow && k !in alone then 1 else 0
  }

  /** How many of len bytes copyout writes at va, given the marks, which pages share no frame, and the free frames. */
  function Reach(marks: map<Key, Mark>, alone: set<Key>, free: nat, p: Pid, va: nat, len: nat): (n: nat)
    ensures n <= len
    decreases len
  {
    var k := Key(p, va / PGSIZE);
    if len == 0 || Denied(marks, p, va) || (marks[k].cow && free == 0) then 0
    else Chunk(va, len) + Reach(marks, alone, free - Takes(marks, alone, k), p, va + Chunk(va, len), len - Chunk(va, len))
  }

  predicate SameAt(marks: map<Key, Mark>, alone: set<Key>, marks': map<Key, Mark>, alone': set<Key>, k: Key) {
    && (k in marks <==> k in marks') && (k in marks ==> marks'[k] == marks[k])
    && (k in alone <==> k in alone')
  }

  ghost predicate SameFrom(marks: map<Key, Mark>, alone: set<Key>, marks': map<Key, Mark>, alone': set<Key>, p: Pid, page: nat) {
    forall k: Key :: k.pid == p && k.page >= page ==> SameAt(marks, alone, marks', alone', k)
  }

  /** No page of p but the given one differs. */
  ghost predicate SameBut(marks: map<Key, Mark>, alone: set<Key>, marks': map<Key, Mark>, alone': set<Key>, p: Pid, page: nat) {
    forall k: Key :: k.pid == p && k.page != page ==> SameAt(marks, alone, marks', alone', k)
  }

  lemma SameButSelf(marks: map<Key, Mark>, alone: set<Key>, p: Pid, page: nat)
    ensures SameBut(marks, alone, marks, alone, p, page)
  {
  }

  lemma SameFromSelf(marks: map<Key, Mark>, alone: set<Key>, p: Pid, page: nat)
    ensures SameFrom(marks, alone, marks, alone, p, page)
  {
  }

  lemma ChunkEnds(va: nat, len: nat)
    requires len > 0
    ensures var n := Chunk(va, len);
            va % PGSIZE + n <= PGSIZE && (n < len ==> (va + n) % PGSIZE == 0 && (va + n) / PGSIZE == va / PGSIZE + 1)
  {
    if Chunk(va, len) < len {
      assert va + Chunk(va, len) == PGSIZE * (va / PGSIZE + 1);
    }
  }

  lemma SameFromNext(marks: map<Key, Mark>, alone: set<Key>, marks1: map<Key, Mark>, alone1: set<Key>,
                     marks2: map<Key, Mark>, alone2: set<Key>, p: Pid, va: nat, len: nat)
    requires len > 0 && SameFrom(marks, alone, marks1, alone1, p, va / PGSIZE)
    requires SameBut(marks1, alone1, marks2, alone2, p, va / PGSIZE)
    ensures Chunk(va, len) < len ==> SameFrom(marks, alone, marks2, alone2, p, (va + Chunk(va, len)) / PGSIZE)
  {
    ChunkEnds(va, len);
    forall k: Key | k.pid == p && k.page > va / PGSIZE
      ensures SameAt(marks, alone, marks2, alone2, k)
    {
      assert SameAt(marks, alone, marks1, alone1, k) && SameAt(marks1, alone1, marks2, alone2, k);
    }
  }

  /** One round of copyout, seen from the state at the beginning of it. */
  lemma ReachStep(marks: map<Key, Mark>, alone: set<Key>, marks': map<Key, Mark>, alone': set<Key>,
                  free: nat, p: Pid, va: nat, len: nat)
    requires len > 0 && SameFrom(marks, alone, marks', alone', p, va / PGSIZE)
    ensures var k := Key(p, va / PGSIZE);
            && (Denied(marks, p, va) <==> Denied(marks', p, va))
            && (k in marks <==> k in marks') && (k in marks ==> marks'[k] == marks[k])
            && Takes(marks, alone, k) == Takes(marks', alone', k)
            && Reach(marks, alone, free, p, va, len) ==
               if Denied(marks', p, va) || (k in marks' && marks'[k].cow && free == 0) then 0
               else Chunk(va, len) + Reach(marks, alone, free - Takes(marks', alone', k), p, va + Chunk(va, len), len - Chunk(va, len))
  {
    assert SameAt(marks, alone, marks', alone', Key(p, va / PGSIZE));
  }

  // Loads and copyin.

  predicate CanLoad(marks: map<Key, Mark>, p: Pid, va: nat) {
    Readable(marks, p, va) && marks[Key(p, va / PGSIZE)].r
  }

  predicate CanFetch(marks: map<Key, Mark>, p: Pid, va: nat) {
    Readable(marks, p, va) && marks[Key(p, va / PGSIZE)].x
  }

  /** Process p may read the bytes at va on, and sees dst there. */
  ghost predicate SeenAt(marks: map<Key, Mark>, v: map<Key, Page>, p: Pid, va: nat, dst: seq<int>) {
    forall i :: 0 <= i < |dst| ==> SeesByte(marks, v, p, va + i, dst[i])
  }

  ghost predicate SeesByte(marks: map<Key, Mark>, v: map<Key, Page>, p: Pid, va: nat, b: int) {
    Readable(marks, p, va) && Key(p, va / PGSIZE) in v && b == ByteAt(v, p, va)
  }

  lemma SeenNothing(marks: map<Key, Mark>, v: map<Key, Page>, p: Pid, va: nat)
    ensures SeenAt(marks, v, p, va, [])
  {
  }

  /** One iteration of copyin: the bytes taken from the frame are the next ones the process sees. */
  lemma SeesChunk(m: Mem, p: Pid, start: nat, dst: seq<int>, n: nat)
    requires Good(m) && LeafOk(m) && SeenAt(Marks(m.leaf), View(m), p, start, dst) && WholePages(View(m))
    requires var va := start + |dst|;
             && va % PGSIZE + n <= PGSIZE && Readable(Marks(m.leaf), p, va)
             && Key(p, va / PGSIZE) in View(m)
    ensures var va := start + |dst|;
            SeenAt(Marks(m.leaf), View(m), p, start, dst + View(m)[Key(p, va / PGSIZE)].bytes[va % PGSIZE..va % PGSIZE + n])
  {
    hide Good, View, Marks;
    var va := start + |dst|;
    var dst' := dst + View(m)[Key(p, va / PGSIZE)].bytes[va % PGSIZE..va % PGSIZE + n];
    forall i | 0 <= i < |dst'|
      ensures SeesByte(Marks(m.leaf), View(m), p, start + i, dst'[i])
    {
      if i >= |dst| {
        SamePage(va, i - |dst|);
        assert start + i == va + (i - |dst|);
      } else {
        assert SeesByte(Marks(m.leaf), View(m), p, start + i, dst[i]);
      }
    }
  }

  lemma SamePage(va: nat, i: nat)
    requires va % PGSIZE + i < PGSIZE
    ensures (va + i) / PGSIZE == va / PGSIZE && (va + i) % PGSIZE == va % PGSIZE + i
    ensures va < MAXVA ==> va + i < MAXVA
  {
  }

  // One page of copyout.

  ghost predicate CanCopy(m: Mem, p: Pid, va: nat) {
    !Denied(Marks(m.leaf), p, va) && !(IsCow(m.leaf, Key(p, va / PGSIZE)) && m.freelist == [])
  }

  /** From m to m' chunk has been copied out to the page of va. */
  ghost predicate PageCopied(m: Mem, m': Mem, p: Pid, va: nat, chunk: seq<int>) {
    var k := Key(p, va / PGSIZE);
    && Good(m) && Good(m') && Kept(m, m') && m'.tables == m.tables
    && View(m') == Write(View(m), p, va, chunk)
    && Marks(m'.leaf) == (if IsCow(m.leaf, k) then Marks(m.leaf)[k := ALL] else Marks(m.leaf))
    && |m'.freelist| == |m.freelist| - Takes(Marks(m.leaf), Alone(m.leaf), k)
    && SameBut(Marks(m.leaf), Alone(m.leaf), Marks(m'.leaf), Alone(m'.leaf), p, va / PGSIZE)
  }

  /** dup_pg, which has led from m to m1, and memmove. */
  lemma CopiedPageGood(m: Mem, m1: Mem, p: Pid, va: nat, chunk: seq<int>)
    requires Good(m) && va % PGSIZE + |chunk| <= PGSIZE
    requires var k := Key(p, va / PGSIZE);
             && k in m.leaf && m.leaf[k].frame in m.frames && m.leaf[k].frame in m.count && (m.leaf[k].cow ==> m.freelist != [])
             && m1 == if m.leaf[k].cow then Duplicated(m, k) else m
    ensures var k := Key(p, va / PGSIZE);
            && k in m1.leaf && m1.leaf[k].frame in m1.frames
            && PageCopied(m, Stored(m1, k, Patch(m1.frames[m1.leaf[k].frame], k.page * PGSIZE, va, chunk)), p, va, chunk)
  {
    hide Inv, Treed, InPlace, PathsOk, WholeFrames, View, Write, Patch, Kept, Alone, SameBut, Duplicated;
    var k := Key(p, va / PGSIZE);
    if m.leaf[k].cow {
      DuplicateGood(m, k);
      DuplicateOthers(m, k);
      MarksSet(m.leaf, k, Pte(m.freelist[0], true, true, true, true, false));
    } else {
      SameButSelf(Marks(m.leaf), Alone(m.leaf), p, k.page);
      KeptSelf(m);
    }
    FrameIsView(m1, k);
    StoreChunk(m1, p, va, chunk);
    KeptTwice(m, m1, Stored(m1, k, Patch(m1.frames[m1.leaf[k].frame], k.page * PGSIZE, va, chunk)));
  }

  lemma FrameIsView(m: Mem, k: Key)
    requires Good(m) && k in m.leaf
    ensures m.leaf[k].frame in m.frames && k in View(m) && View(m)[k] == m.frames[m.leaf[k].frame]
  {
    hide Treed, FrameOk, SharedIsCow;
  }

  // Copyout as a whole.

  /** n bytes of src have been copied, whole pages of them unless it is all; and what is still to come is as it was. */
  ghost predicate Copied(m: Mem, m': Mem, p: Pid, va: nat, src: seq<int>, n: nat) {
    var marks, alone, at := Marks(m.leaf), Alone(m.leaf), va + n;
    && n <= |src|
    && Good(m) && Good(m') && Kept(m, m') && m'.tables == m.tables
    && View(m') == Write(View(m), p, va, src[..n])
    && Marks(m'.leaf) == WrittenMarks(marks, p, va, n)
    && (0 < n < |src| ==> at % PGSIZE == 0)
    && (n < |src| ==> SameFrom(marks, alone, Marks(m'.leaf), Alone(m'.leaf), p, at / PGSIZE))
    && Reach(marks, alone, |m.freelist|, p, va, |src|) == n + Reach(marks, alone, |m'.freelist|, p, at, |src| - n)
  }

  lemma CopiedNothing(m: Mem, p: Pid, va: nat, src: seq<int>)
    requires Good(m)
    ensures Copied(m, m, p, va, src, 0)
  {
    hide Good, View, Write, Kept, WrittenMarks, Alone, Marks, SameFrom, Reach;
    GoodLeaf(m);
    assert src[..0] == [];
    WriteNothing(View(m), p, va);
    WrittenMarksNothing(Marks(m.leaf), p, va);
    KeptSelf(m);
    SameFromSelf(Marks(m.leaf), Alone(m.leaf), p, va / PGSIZE);
  }

  lemma CopiedFacts(m: Mem, m': Mem, p: Pid, va: nat, src: seq<int>, n: nat)
    requires Copied(m, m', p, va, src, n)
    ensures Good(m') && Kept(m, m') && m'.tables == m.tables && n <= |src|
    ensures View(m') == Write(View(m), p, va, src[..n]) && Marks(m'.leaf) == WrittenMarks(Marks(m.leaf), p, va, n)
    ensures n < |src| ==> (va + n) % PGSIZE + Chunk(va + n, |src| - n) <= PGSIZE
  {
    hide Good, View, Write, Kept, WrittenMarks, Alone, Marks, SameFrom, Reach;
    if n < |src| {
      ChunkEnds(va + n, |src| - n);
    }
  }

  lemma CopiedMore(m: Mem, m1: Mem, m2: Mem, p: Pid, va: nat, src: seq<int>, n: nat)
    requires Copied(m, m1, p, va, src, n) && n < |src| && CanCopy(m1, p, va + n)
    requires PageCopied(m1, m2, p, va + n, src[n..n + Chunk(va + n, |src| - n)])
    ensures Copied(m, m2, p, va, src, n + Chunk(va + n, |src| - n))
  {
    hide Good, View, Write, Kept, WrittenMarks, Alone, Marks, SameFrom, SameBut, Reach, Denied, Takes;
    var at, left := va + n, |src| - n;
    var len := Chunk(at, left);
    var marks, alone, marks1, alone1 := Marks(m.leaf), Alone(m.leaf), Marks(m1.leaf), Alone(m1.leaf);
    ChunkEnds(at, left);
    GoodLeaf(m);
    assert src[..n] + src[n..n + len] == src[..n + len];
    WriteTwice(View(m), p, va, src[..n], src[n..n + len]);
    KeptTwice(m, m1, m2);
    WrittenMarksMore(marks, p, va, n, len);
    SameFromNext(marks, alone, marks1, alone1, Marks(m2.leaf), Alone(m2.leaf), p, at, left);
    ReachStep(marks, alone, marks1, alone1, |m1.freelist|, p, at, left);
    MarksAt(m1.leaf, Key(p, at / PGSIZE));
  }

  lemma MarksAt(leaf: map<Key, Pte>, k: Key)
    ensures k in Marks(leaf) <==> k in leaf
    ensures k in leaf ==> Marks(leaf)[k] == MarkOf(leaf[k])
    ensures IsCow(leaf, k) <==> k in Marks(leaf) && Marks(leaf)[k].cow
  {
  }

  /** Copyout stops where Reach says: at the end, or at a page that cannot be written. */
  lemma CopiedEnds(m: Mem, m': Mem, p: Pid, va: nat, src: seq<int>, n: nat)
    requires Copied(m, m', p, va, src, n) && (n == |src| || !CanCopy(m', p, va + n))
    ensures n == Reach(Marks(m.leaf), Alone(m.leaf), |m.freelist|, p, va, |src|)
    ensures |src| > 0 && va < PGSIZE ==> n == 0 < |src|
  {
    hide Good, View, Write, Kept, WrittenMarks, Alone, Marks, SameFrom, Takes;
    if n < |src| {
      ReachStep(Marks(m.leaf), Alone(m.leaf), Marks(m'.leaf), Alone(m'.leaf), |m'.freelist|, p, va + n, |src| - n);
      MarksAt(m'.leaf, Key(p, (va + n) / PGSIZE));
    }
  }

  // Unmapping.

  /** From m to m' the pages r have been unmapped and their references dropped. */
  ghost predicate Dropped(m: Mem, m': Mem, r: set<Key>) {
    && Good(m) && Good(m') && Kept(m, m') && m'.tables == m.tables
    && m'.leaf == m.leaf - r && View(m') == View(m) - r
  }

  lemma DropNothing(m: Mem, p: Pid, first: nat)
    requires Good(m)
    ensures Range(p, first, 0) == {} && Dropped(m, m, {})
  {
    hide Good, View;
    GoodLeaf(m);
    DropNone(m.leaf);
    DropNone(View(m));
  }

  lemma DroppedTables(m: Mem, m': Mem, r: set<Key>)
    requires Dropped(m, m', r)
    ensures Good(m') && m'.tables == m.tables
  {
    hide Good, View, Kept;
  }

  lemma DropNone<V>(v: map<Key, V>)
    ensures v - {} == v
  {
  }

  lemma DropTwice<V>(v: map<Key, V>, r: set<Key>, k: Key)
    ensures v - r - {k} == v - (r + {k})
  {
  }

  lemma DropMore(m: Mem, m1: Mem, r: set<Key>, k: Key)
    requires Dropped(m, m1, r) && k in m.leaf && k !in r
    ensures k in m1.leaf && m1.leaf[k].frame in m1.count && m1.leaf[k].frame !in m1.kernel
    ensures Dropped(m, Unmapped(m1, k), r + {k})
  {
    hide Good, View, Unmapped;
    GoodLeaf(m);
    UnmapGood(m1, k);
    DropTwice(m.leaf, r, k);
    DropTwice(View(m), r, k);
    GoodInv(m1);
    MappedFrame(m1, k);
    KeptTwice(m, m1, Unmapped(m1, k));
  }

  /** kfree before the PTE is cleared comes to the same. */
  lemma UnmappedIs(m: Mem, m': Mem, k: Key)
    requires k in m.leaf && m.leaf[k].frame in m.count
    requires m' == Freed(m, m.leaf[k].frame).(leaf := m.leaf - {k})
    ensures m' == Unmapped(m, k)
  {
  }

  // One page more.

  ghost predicate PageAdded(m: Mem, m': Mem, k: Key, w: bool, x: bool) {
    && Good(m) && Good(m') && Kept(m, m') && k !in m.leaf
    && (exists f :: m'.leaf == m.leaf[k := Pte(f, true, w, x, true, false)])
    && View(m') == View(m)[k := Filled(0)]
    && TablesAdded(m.tables, m'.tables, Path(k))
    && |m'.freelist| + |m'.tables.Keys| + 1 == |m.freelist| + |m.tables.Keys|
  }

  lemma UnseenSelf(m: Mem, more: set<Table>)
    requires Good(m)
    ensures Unseen(m, m, more)
  {
    hide Good, View;
  }

  lemma PagesGrow(from: nat, to: nat)
    requires from <= to
    ensures Pages(from) <= Pages(to)
  {
  }

  /** From m to m1 kalloc has taken f off the free list and memset has zeroed it. */
  ghost predicate FrameTaken(m: Mem, m1: Mem, f: Frame) {
    && Good(m) && Good(m1) && View(m1) == View(m) && m1.leaf == m.leaf && m1.tables == m.tables
    && m1.frames.Keys == m.frames.Keys && f in m1.frames && m1.frames[f] == Filled(0)
    && Loose(m1) == Loose(m) + {f} && f !in Loose(m) && |m1.freelist| == |m.freelist| - 1
  }

  /** Then there is still room below MAXVA for one more page. */
  lemma ZeroFrame(m: Mem, m1: Mem, k: Key)
    requires Good(m) && m.freelist != [] && |m.frames.Keys| <= NFRAMES && Range(k.pid, 0, k.page) <= m.leaf.Keys
    requires m1 == Popped(m).(frames := Popped(m).frames[m.freelist[0] := Filled(0)])
    ensures FrameTaken(m, m1, m.freelist[0]) && k.page < MAXPAGE
    ensures Good(m1) && m1.leaf == m.leaf && m1.tables == m.tables && |m1.freelist| == |m.freelist| - 1
  {
    hide Inv, View, Treed, InPlace, PathsOk, WholeFrames, Range, Loose, HeldSame, Filled;
    var f := m.freelist[0];
    PopGood(m);
    ZeroedGood(Popped(m), f);
    assert f in Loose(m1);
    PagesFit(m1, k.pid, k.page);
  }

  lemma AllocAdds(m: Mem, m1: Mem, between: Mem, k: Key, pte: Pte)
    requires FrameTaken(m, m1, pte.frame) && k !in m.leaf && pte.r && pte.u && !pte.cow
    requires Walks(m1, between, Path(k)) && HasPath(between.tables, k) && between.tables.Keys == m1.tables.Keys + Path(k)
    ensures PageAdded(m, Mapped(between, k, pte), k, pte.w, pte.x)
  {
    hide Good, View, Loose, Filled, Path, Grew;
    MapFreshGood(between, k, pte);
    assert Mapped(between, k, pte).leaf == m.leaf[k := Pte(pte.frame, true, pte.w, pte.x, true, false)];
  }

  lemma AllocUndone(m: Mem, m1: Mem, between: Mem, f: Frame, more: set<Table>)
    requires FrameTaken(m, m1, f) && Walks(m1, between, more)
    ensures f in between.count && Unseen(m, Freed(between, f), more)
  {
    hide Good, View, Loose, Grew, Freed;
    FreeOwnedGood(between, f);
  }

  // A range of pages more.

  /** The frames that mapping a range takes: its pages and the page-table pages that are missing. */
  function Need(tables: set<Table>, p: Pid, first: nat, n: nat): nat {
    n + |Paths(p, first, n) - tables|
  }

  ghost predicate RangeAdded(m: Mem, m': Mem, p: Pid, first: nat, n: nat, w: bool, x: bool) {
    && Good(m) && Good(m') && Kept(m, m') && View(m') == Grown(View(m), p, first, n, Filled(0))
    && LeavesAdded(m.leaf, m'.leaf, Range(p, first, n)) && Marks(m'.leaf) == Grown(Marks(m.leaf), p, first, n, NewMark(w, x))
    && TablesAdded(m.tables, m'.tables, Paths(p, first, n))
    && |m'.freelist| + |m'.tables.Keys| + n == |m.freelist| + |m.tables.Keys|
  }

  ghost predicate LeavesAdded(leaf: map<Key, Pte>, leaf': map<Key, Pte>, r: set<Key>) {
    r !! leaf.Keys && leaf'.Keys == leaf.Keys + r && leaf' - r == leaf
  }

  predicate TablesAdded(tables: map<Table, Frame>, tables': map<Table, Frame>, path: set<Table>) {
    Grew(tables, tables', path) && tables'.Keys == tables.Keys + path
  }

  lemma AddedNothing(m: Mem, p: Pid, first: nat, w: bool, x: bool)
    requires Good(m)
    ensures RangeAdded(m, m, p, first, 0, w, x)
  {
    hide Good, View, Marks, Grown, Range, Paths;
    GoodLeaf(m);
    NoPaths(p, first, 0);
    DropNone(m.leaf);
    GrownNothing(Marks(m.leaf), p, first, 0, NewMark(w, x));
    GrownNothing(View(m), p, first, 0, Filled(0));
  }

  /** What the next page needs to hold. */
  lemma AddedFacts(m: Mem, m': Mem, p: Pid, first: nat, n: nat, all: nat, w: bool, x: bool)
    requires RangeAdded(m, m', p, first, n, w, x) && n < all && Range(p, first, all) !! m.leaf.Keys
    requires Root(p) in m.tables && Range(p, 0, first) <= m.leaf.Keys && |m.frames.Keys| <= NFRAMES
    ensures Good(m') && Root(p) in m'.tables && |m'.frames.Keys| <= NFRAMES
    ensures Key(p, first + n) !in m'.leaf && Range(p, 0, first + n) <= m'.leaf.Keys && Range(p, first, n) <= m'.leaf.Keys
  {
    hide Good, View, Marks, Grown, Paths;
    RangeWithin(p, first, n, all);
    RangeStep(p, first, n);
    forall k | k in Range(p, 0, first + n)
      ensures k in m'.leaf.Keys
    {
      assert k in Range(p, 0, first) || k in Range(p, first, n);
    }
  }

  lemma AddedMore(m: Mem, m1: Mem, m2: Mem, p: Pid, first: nat, n: nat, w: bool, x: bool)
    requires RangeAdded(m, m1, p, first, n, w, x) && PageAdded(m1, m2, Key(p, first + n), w, x)
    ensures RangeAdded(m, m2, p, first, n + 1, w, x)
  {
    hide Good, View, Marks, Grown, Range, Paths, Path, Kept, LeavesAdded, TablesAdded, Filled;
    var k := Key(p, first + n);
    var f :| m2.leaf == m1.leaf[k := Pte(f, true, w, x, true, false)];
    GoodLeaf(m);
    RangeStep(p, first, n);
    PathsStep(p, first, n);
    KeptTwice(m, m1, m2);
    MarksSet(m1.leaf, k, Pte(f, true, w, x, true, false));
    GrownStep(Marks(m.leaf), p, first, n, NewMark(w, x));
    GrownStep(View(m), p, first, n, Filled(0));
    TablesAddedMore(m.tables, m1.tables, m2.tables, Paths(p, first, n), Path(k));
    AddedLeaf(m.leaf, m1.leaf, Range(p, first, n), k, Pte(f, true, w, x, true, false));
  }

  lemma AddedLeaf(leaf: map<Key, Pte>, leaf1: map<Key, Pte>, r: set<Key>, k: Key, pte: Pte)
    requires k !in leaf1 && LeavesAdded(leaf, leaf1, r)
    ensures LeavesAdded(leaf, leaf1[k := pte], r + {k})
  {
  }

  lemma GrewBoth(tables: map<Table, Frame>, tables1: map<Table, Frame>, tables2: map<Table, Frame>, a: set<Table>, b: set<Table>)
    requires Grew(tables, tables1, a) && Grew(tables1, tables2, b)
    ensures Grew(tables, tables2, a + b)
  {
  }

  lemma TablesAddedMore(tables: map<Table, Frame>, tables1: map<Table, Frame>, tables2: map<Table, Frame>,
                        a: set<Table>, b: set<Table>)
    requires TablesAdded(tables, tables1, a) && TablesAdded(tables1, tables2, b)
    ensures TablesAdded(tables, tables2, a + b)
  {
  }

  /** The need of a range and one page more. */
  lemma MissingMore(tables: set<Table>, a: set<Table>, b: set<Table>)
    ensures |(a + b) - tables| == |a - tables| + |b - (tables + a)|
  {
    PartSize((a + b) - tables, a - tables);
    assert ((a + b) - tables) - (a - tables) == b - (tables + a);
  }

  lemma AddedEnough(m: Mem, m': Mem, p: Pid, first: nat, n: nat, w: bool, x: bool)
    requires RangeAdded(m, m', p, first, n, w, x)
    ensures Need(m.tables.Keys, p, first, n) <= |m.freelist|
  {
    hide RangeAdded, Paths;
    AddedCounts(m, m', p, first, n, w, x);
    MissingAll(m.tables.Keys, m'.tables.Keys, Paths(p, first, n));
  }

  lemma NeedGrows(tables: set<Table>, p: Pid, first: nat, n: nat, all: nat)
    requires n <= all
    ensures Need(tables, p, first, n) <= Need(tables, p, first, all)
  {
    hide Paths;
    PathsWithin(p, first, n, all);
    SubsetSize(Paths(p, first, n) - tables, Paths(p, first, all) - tables);
  }

  lemma AddedCounts(m: Mem, m': Mem, p: Pid, first: nat, n: nat, w: bool, x: bool)
    requires RangeAdded(m, m', p, first, n, w, x)
    ensures m'.tables.Keys == m.tables.Keys + Paths(p, first, n) && Grew(m.tables, m'.tables, Paths(p, first, n))
    ensures |m'.freelist| + |m'.tables.Keys| + n == |m.freelist| + |m.tables.Keys|
    ensures Range(p, first, n) <= m'.leaf.Keys
  {
    hide Good, View, Marks, Grown, Range, Paths, Kept, Grew;
  }

  /** If there are not the frames for the next page, there were not for the whole range. */
  lemma AddedShort(m: Mem, m1: Mem, m2: Mem, p: Pid, first: nat, n: nat, all: nat, w: bool, x: bool)
    requires RangeAdded(m, m1, p, first, n, w, x) && n < all
    requires Unseen(m1, m2, Path(Key(p, first + n))) && 1 + |Path(Key(p, first + n)) - m1.tables.Keys| > |m1.freelist|
    ensures Need(m.tables.Keys, p, first, all) > |m.freelist|
    ensures Good(m2) && Range(p, first, n) <= m2.leaf.Keys
  {
    hide Good, RangeAdded, Unseen, Range, Paths, Path, Grew;
    AddedCounts(m, m1, p, first, n, w, x);
    UnseenFacts(m1, m2, Path(Key(p, first + n)));
    NeedShort(m.tables.Keys, m1.tables.Keys, p, first, n, all, |m.freelist|, |m1.freelist|);
  }

  lemma UnseenFacts(m: Mem, m': Mem, more: set<Table>)
    requires Unseen(m, m', more)
    ensures Good(m) && Good(m') && m'.leaf == m.leaf && Grew(m.tables, m'.tables, more) && Kept(m, m')
    ensures LeafOk(m) && LeafOk(m') && View(m') == View(m)
  {
    hide Good, View, Grew, Kept;
    GoodLeaf(m);
    GoodLeaf(m');
  }

  lemma NeedShort(tables: set<Table>, now: set<Table>, p: Pid, first: nat, n: nat, all: nat, free: nat, left: nat)
    requires now == tables + Paths(p, first, n) && left + |now| + n == free + |tables| && n < all
    requires 1 + |Path(Key(p, first + n)) - now| > left
    ensures Need(tables, p, first, all) > free
  {
    hide Paths, Path;
    MissingAll(tables, now, Paths(p, first, n));
    MissingMore(tables, Paths(p, first, n), Path(Key(p, first + n)));
    PathsStep(p, first, n);
    NeedGrows(tables, p, first, n + 1, all);
  }

  lemma AddedUndone(m: Mem, m1: Mem, m2: Mem, m3: Mem, p: Pid, first: nat, n: nat, all: nat, w: bool, x: bool)
    requires RangeAdded(m, m1, p, first, n, w, x) && n < all && Unseen(m1, m2, Path(Key(p, first + n)))
    requires Dropped(m2, m3, Range(p, first, n))
    ensures Unseen(m, m3, Paths(p, first, all))
  {
    hide Good, View, RangeAdded, Dropped, Range, Paths, Path, Grew, Kept;
    UndoneViews(m, m1, m2, m3, p, first, n, w, x);
    assert m3.tables == m2.tables by {
      DroppedTables(m2, m3, Range(p, first, n));
    }
    UndoneTables(m, m1, m2, m3, p, first, n, all, w, x);
    SameCount(m, m3);
  }

  lemma UndoneViews(m: Mem, m1: Mem, m2: Mem, m3: Mem, p: Pid, first: nat, n: nat, w: bool, x: bool)
    requires RangeAdded(m, m1, p, first, n, w, x) && Unseen(m1, m2, Path(Key(p, first + n)))
    requires Dropped(m2, m3, Range(p, first, n))
    ensures Good(m) && Good(m3) && Kept(m, m3) && m3.leaf == m.leaf && LeafOk(m) && LeafOk(m3) && View(m3) == View(m)
  {
    hide Good, View, Marks, Grown, Range, Paths, Path, Grew, Kept, TablesAdded, Unseen;
    UnseenFacts(m1, m2, Path(Key(p, first + n)));
    GoodLeaf(m);
    GoodLeaf(m3);
    ViewKeys(m);
    GrownUndo(View(m1), View(m), p, first, n, Filled(0));
    KeptTwice(m, m1, m2);
    KeptTwice(m, m2, m3);
  }

  lemma UndoneTables(m: Mem, m1: Mem, m2: Mem, m3: Mem, p: Pid, first: nat, n: nat, all: nat, w: bool, x: bool)
    requires RangeAdded(m, m1, p, first, n, w, x) && n < all && Unseen(m1, m2, Path(Key(p, first + n)))
    requires m3.tables == m2.tables
    ensures Grew(m.tables, m3.tables, Paths(p, first, all))
  {
    hide Good, View, Kept, LeafOk, RangeAdded, Range, Paths, Path, Grew, Unseen;
    AddedCounts(m, m1, p, first, n, w, x);
    UnseenFacts(m1, m2, Path(Key(p, first + n)));
    GrewBoth(m.tables, m1.tables, m2.tables, Paths(p, first, n), Path(Key(p, first + n)));
    PathsStep(p, first, n);
    PathsWithin(p, first, n + 1, all);
    GrewWithin(m.tables, m3.tables, Paths(p, first, n + 1), Paths(p, first, all));
  }

  /** The frames that are free or page tables are as many as before if nothing else has changed hands. */
  lemma SameCount(m: Mem, m': Mem)
    requires Good(m) && Good(m') && Kept(m, m') && m'.leaf == m.leaf
    ensures |m'.freelist| + |m'.tables.Keys| == |m.freelist| + |m.tables.Keys|
  {
    hide Inv, Treed, PathsOk, WholeFrames, InPlace, Loose, MappedFrames;
    FramesCounted(m);
    FramesCounted(m');
  }

  lemma GrewWithin(tables: map<Table, Frame>, tables': map<Table, Frame>, a: set<Table>, b: set<Table>)
    requires Grew(tables, tables', a) && a <= b
    ensures Grew(tables, tables', b)
  {
  }

  lemma GoodInv(m: Mem)
    requires Good(m)
    ensures Inv(m)
  {
  }

  // Sharing one page.

  /** From m to m' page k has been marked COW, and page-table pages from more may have been added. */
  ghost predicate PageMarked(m: Mem, m': Mem, k: Key, more: set<Table>) {
    && Good(m) && Good(m') && Kept(m, m') && View(m') == View(m)
    && k in m.leaf && Marks(m'.leaf) == Marks(m.leaf)[k := Cowed(Marks(m.leaf)[k])]
    && Grew(m.tables, m'.tables, more)
    && |m'.freelist| + |m'.tables.Keys| == |m.freelist| + |m.tables.Keys|
  }

  ghost predicate PageShared(m: Mem, m': Mem, k: Key, c: Key) {
    && Good(m) && Good(m') && Kept(m, m')
    && k in m.leaf && c !in m.leaf && k in View(m) && View(m') == View(m)[c := View(m)[k]]
    && Marks(m'.leaf) == Marks(m.leaf)[k := Cowed(Marks(m.leaf)[k])][c := Cowed(Marks(m.leaf)[k])]
    && TablesAdded(m.tables, m'.tables, Path(c))
    && |m'.freelist| + |m'.tables.Keys| == |m.freelist| + |m.tables.Keys|
  }

  lemma CowMarks(m: Mem, m1: Mem, between: Mem, k: Key, more: set<Table>)
    requires Good(m) && k in m.leaf && m1 == m.(leaf := m.leaf[k := m.leaf[k].(w := false, cow := true)])
    requires Good(m1) && LeafOk(m) && LeafOk(m1) && View(m1) == View(m) && Kept(m, m1) && Walks(m1, between, more)
    ensures PageMarked(m, between, k, more)
  {
    hide Good, View, Marks, Grew, LeafOk;
    MarksSet(m.leaf, k, m.leaf[k].(w := false, cow := true));
    MarksAt(m.leaf, k);
  }

  lemma CowShares(m: Mem, m1: Mem, between: Mem, k: Key, c: Key)
    requires Good(m) && k in m.leaf && c !in m.leaf && c.page == k.page
    requires m1 == m.(leaf := m.leaf[k := m.leaf[k].(w := false, cow := true)])
    requires Walks(m1, between, Path(c)) && HasPath(between.tables, c) && between.tables.Keys == m.tables.Keys + Path(c)
    requires PageMarked(m, between, k, Path(c))
    ensures k in between.leaf && between.leaf[k] == m1.leaf[k] && between.leaf[k].frame in between.count
    ensures var f, after := between.leaf[k].frame, Mapped(between, c, between.leaf[k]);
            PageShared(m, after.(count := after.count[f := after.count[f] + 1]), k, c)
  {
    hide Good, View, Marks, Grew, Kept, Path, HeldSame, LeafOk;
    ShareGood(between, k, c);
    GoodLeaf(m);
    GoodLeaf(between);
    FrameIsView(m, k);
    MarksAt(m.leaf, k);
    SharedIs(between, k, c);
    SharedMarks(m.leaf, between.leaf, k, c);
    KeptTwice(m, between, Shared(between, k, c));
  }

  lemma SharedIs(m: Mem, k: Key, c: Key)
    requires k in m.leaf && m.leaf[k].frame in m.count && m.leaf[k].frame !in m.kernel
    ensures var f, after := m.leaf[k].frame, Mapped(m, c, m.leaf[k]);
            after.(count := after.count[f := after.count[f] + 1]) == Shared(m, k, c)
  {
    assert m.kernel - {m.leaf[k].frame} == m.kernel;
  }

  lemma SharedMarks(leaf: map<Key, Pte>, leaf1: map<Key, Pte>, k: Key, c: Key)
    requires k in leaf && k in leaf1 && leaf1[k] == leaf[k].(w := false, cow := true)
    requires k in Marks(leaf) && Marks(leaf1) == Marks(leaf)[k := Cowed(Marks(leaf)[k])]
    ensures Marks(leaf1[c := leaf1[k]]) == Marks(leaf)[k := Cowed(Marks(leaf)[k])][c := Cowed(Marks(leaf)[k])]
  {
    hide Marks;
    MarksSet(leaf1, c, leaf1[k]);
    MarksAt(leaf, k);
  }

  // Sharing a range.

  ghost predicate RangeShared(m: Mem, m': Mem, p: Pid, c: Pid, n: nat) {
    && Good(m) && Good(m') && Kept(m, m') && p != c && Range(c, 0, n) !! m.leaf.Keys
    && View(m') == Forked(View(m), p, c, n) && Marks(m'.leaf) == ForkedMarks(Marks(m.leaf), p, c, n)
    && m'.leaf.Keys == m.leaf.Keys + Range(c, 0, n)
    && TablesAdded(m.tables, m'.tables, Paths(c, 0, n))
    && |m'.freelist| + |m'.tables.Keys| == |m.freelist| + |m.tables.Keys|
  }

  /** The copy has been undone, but for the marks and page-table pages. */
  ghost predicate RangeMarked(m: Mem, m': Mem, p: Pid, upto: nat, more: set<Table>) {
    && Good(m) && Good(m') && Kept(m, m') && View(m') == View(m)
    && Marks(m'.leaf) == CowedMarks(Marks(m.leaf), p, upto)
    && Grew(m.tables, m'.tables, more)
  }

  lemma MarksKeys(leaf: map<Key, Pte>)
    ensures Marks(leaf).Keys == leaf.Keys
  {
  }

  lemma SharedNothing(m: Mem, p: Pid, c: Pid)
    requires Good(m) && p != c
    ensures RangeShared(m, m, p, c, 0)
  {
    hide Good, View, Marks, Range, Paths, Forked, ForkedMarks;
    GoodLeaf(m);
    NoPaths(c, 0, 0);
    ForkedNothing(View(m), p, c);
    ForkedMarksNothing(Marks(m.leaf), p, c);
  }

  lemma SharedCounts(m: Mem, m': Mem, p: Pid, c: Pid, n: nat)
    requires RangeShared(m, m', p, c, n)
    ensures Good(m') && m'.leaf.Keys == m.leaf.Keys + Range(c, 0, n) && Kept(m, m')
    ensures m'.tables.Keys == m.tables.Keys + Paths(c, 0, n) && Grew(m.tables, m'.tables, Paths(c, 0, n))
    ensures |m'.freelist| + |m'.tables.Keys| == |m.freelist| + |m.tables.Keys|
  {
    hide Good, View, Marks, Range, Paths, Forked, ForkedMarks, Kept, Grew;
  }

  lemma SharedFacts(m: Mem, m': Mem, p: Pid, c: Pid, i: nat, n: nat)
    requires RangeShared(m, m', p, c, i) && i < n && Root(c) in m.tables && |m.frames.Keys| <= NFRAMES
    requires Good(m) && Range(p, 0, n) <= m.leaf.Keys && Range(c, 0, n) !! m.leaf.Keys
    ensures Good(m') && Key(p, i) in m'.leaf && Key(c, i) !in m'.leaf && i < MAXPAGE && Root(c) in m'.tables
  {
    hide Good, RangeShared, Range, Paths, Kept, Grew;
    SharedCounts(m, m', p, c, i);
    RangeWithin(p, 0, i, n);
    RangeWithin(c, 0, i, n);
    RangeStep(c, 0, i);
    PagesFit(m, p, n);
  }

  lemma SharedMore(m: Mem, m1: Mem, m2: Mem, p: Pid, c: Pid, i: nat)
    requires RangeShared(m, m1, p, c, i) && PageShared(m1, m2, Key(p, i), Key(c, i))
    requires Range(p, 0, i + 1) <= m.leaf.Keys && Range(c, 0, i + 1) !! m.leaf.Keys
    ensures RangeShared(m, m2, p, c, i + 1)
  {
    hide Good, View, Marks, Range, Paths, Path, Forked, ForkedMarks, Kept, TablesAdded, Cowed;
    GoodLeaf(m);
    ViewKeys(m);
    MarksKeys(m.leaf);
    ForkedStep(View(m), p, c, i);
    ForkedMarksStep(Marks(m.leaf), p, c, i);
    SharedKeys(m.leaf, m1.leaf, m2.leaf, p, c, i);
    KeptTwice(m, m1, m2);
    SharedTables(m.tables, m1.tables, m2.tables, c, i);
  }

  lemma SharedKeys(leaf: map<Key, Pte>, leaf1: map<Key, Pte>, leaf2: map<Key, Pte>, p: Pid, c: Pid, i: nat)
    requires leaf1.Keys == leaf.Keys + Range(c, 0, i) && Marks(leaf2).Keys == Marks(leaf1).Keys + {Key(p, i)} + {Key(c, i)}
    requires Key(p, i) in leaf
    ensures leaf2.Keys == leaf.Keys + Range(c, 0, i + 1)
  {
    hide Range, Marks;
    MarksKeys(leaf1);
    MarksKeys(leaf2);
    RangeStep(c, 0, i);
  }

  lemma SharedTables(tables: map<Table, Frame>, tables1: map<Table, Frame>, tables2: map<Table, Frame>, c: Pid, i: nat)
    requires TablesAdded(tables, tables1, Paths(c, 0, i)) && TablesAdded(tables1, tables2, Path(Key(c, i)))
    ensures TablesAdded(tables, tables2, Paths(c, 0, i + 1))
  {
    hide Paths, Path, TablesAdded;
    PathsStep(c, 0, i);
    TablesAddedMore(tables, tables1, tables2, Paths(c, 0, i), Path(Key(c, i)));
  }

  lemma SharedEnough(m: Mem, m': Mem, p: Pid, c: Pid, n: nat)
    requires RangeShared(m, m', p, c, n)
    ensures |Paths(c, 0, n) - m.tables.Keys| <= |m.freelist|
  {
    hide RangeShared, Paths, Good, Kept, Grew;
    SharedCounts(m, m', p, c, n);
    MissingAll(m.tables.Keys, m'.tables.Keys, Paths(c, 0, n));
  }

  lemma SharedShort(m: Mem, m1: Mem, m2: Mem, p: Pid, c: Pid, i: nat, n: nat)
    requires RangeShared(m, m1, p, c, i) && i < n && PageMarked(m1, m2, Key(p, i), Path(Key(c, i)))
    requires |Path(Key(c, i)) - m1.tables.Keys| > |m1.freelist|
    ensures |Paths(c, 0, n) - m.tables.Keys| > |m.freelist|
    ensures Good(m2) && Range(c, 0, i) <= m2.leaf.Keys
  {
    hide RangeShared, PageMarked, Range, Paths, Path, Good, Kept, Grew;
    SharedCounts(m, m1, p, c, i);
    MarkedFacts(m1, m2, Key(p, i), Path(Key(c, i)));
    PathsShort(m.tables.Keys, m1.tables.Keys, c, i, n, |m.freelist|, |m1.freelist|);
  }

  lemma PathsShort(tables: set<Table>, now: set<Table>, c: Pid, i: nat, n: nat, free: nat, left: nat)
    requires now == tables + Paths(c, 0, i) && left + |now| == free + |tables| && i < n
    requires |Path(Key(c, i)) - now| > left
    ensures |Paths(c, 0, n) - tables| > free
  {
    hide Paths, Path;
    MissingAll(tables, now, Paths(c, 0, i));
    MissingMore(tables, Paths(c, 0, i), Path(Key(c, i)));
    PathsStep(c, 0, i);
    PathsWithin(c, 0, i + 1, n);
    SubsetSize(Paths(c, 0, i + 1) - tables, Paths(c, 0, n) - tables);
  }

  lemma MarkedFacts(m: Mem, m': Mem, k: Key, more: set<Table>)
    requires PageMarked(m, m', k, more)
    ensures Good(m) && Good(m') && Kept(m, m') && Grew(m.tables, m'.tables, more) && m'.leaf.Keys == m.leaf.Keys
    ensures LeafOk(m) && LeafOk(m') && View(m') == View(m)
  {
    hide Good, View, Kept, Grew, Marks;
    GoodLeaf(m);
    GoodLeaf(m');
    MarksKeys(m.leaf);
    MarksKeys(m'.leaf);
  }

  lemma SharedUndone(m: Mem, m1: Mem, m2: Mem, m3: Mem, p: Pid, c: Pid, i: nat, n: nat)
    requires RangeShared(m, m1, p, c, i) && i < n && PageMarked(m1, m2, Key(p, i), Path(Key(c, i)))
    requires Dropped(m2, m3, Range(c, 0, i))
    requires Range(p, 0, n) <= m.leaf.Keys && Range(c, 0, n) !! m.leaf.Keys
    ensures RangeMarked(m, m3, p, i + 1, Paths(c, 0, n))
  {
    hide Good, View, Marks, RangeShared, PageMarked, Dropped, Range, Paths, Path, Grew, Kept, CowedMarks, LeafOk;
    UnsharedViews(m, m1, m2, m3, p, c, i, n);
    UnsharedMarks(m, m1, m2, m3, p, c, i, n);
    DroppedTables(m2, m3, Range(c, 0, i));
    SharedCounts(m, m1, p, c, i);
    MarkedFacts(m1, m2, Key(p, i), Path(Key(c, i)));
    PathsGrew(m.tables, m1.tables, m2.tables, c, i, n);
  }

  lemma PathsGrew(tables: map<Table, Frame>, tables1: map<Table, Frame>, tables2: map<Table, Frame>, c: Pid, i: nat, n: nat)
    requires Grew(tables, tables1, Paths(c, 0, i)) && Grew(tables1, tables2, Path(Key(c, i))) && i < n
    ensures Grew(tables, tables2, Paths(c, 0, n))
  {
    hide Paths, Path, Grew;
    GrewBoth(tables, tables1, tables2, Paths(c, 0, i), Path(Key(c, i)));
    PathsStep(c, 0, i);
    PathsWithin(c, 0, i + 1, n);
    GrewWithin(tables, tables2, Paths(c, 0, i + 1), Paths(c, 0, n));
  }

  lemma UnsharedViews(m: Mem, m1: Mem, m2: Mem, m3: Mem, p: Pid, c: Pid, i: nat, n: nat)
    requires RangeShared(m, m1, p, c, i) && i < n && PageMarked(m1, m2, Key(p, i), Path(Key(c, i)))
    requires Dropped(m2, m3, Range(c, 0, i))
    requires Range(p, 0, n) <= m.leaf.Keys && Range(c, 0, n) !! m.leaf.Keys
    ensures Good(m) && Good(m3) && LeafOk(m) && LeafOk(m3) && View(m3) == View(m) && Kept(m, m3)
  {
    hide Good, View, Marks, Range, Paths, Path, Grew, Kept, TablesAdded, Forked, ForkedMarks, PageMarked, LeafOk;
    GoodLeaf(m);
    GoodLeaf(m3);
    ViewKeys(m);
    MarkedFacts(m1, m2, Key(p, i), Path(Key(c, i)));
    RangeWithin(p, 0, i, n);
    RangeWithin(c, 0, i, n);
    ForkedUndo(View(m), p, c, i);
    KeptTwice(m, m1, m2);
    KeptTwice(m, m2, m3);
  }

  lemma UnsharedMarks(m: Mem, m1: Mem, m2: Mem, m3: Mem, p: Pid, c: Pid, i: nat, n: nat)
    requires RangeShared(m, m1, p, c, i) && i < n && PageMarked(m1, m2, Key(p, i), Path(Key(c, i)))
    requires Dropped(m2, m3, Range(c, 0, i))
    requires Range(p, 0, n) <= m.leaf.Keys && Range(c, 0, n) !! m.leaf.Keys
    ensures Marks(m3.leaf) == CowedMarks(Marks(m.leaf), p, i + 1)
  {
    hide Good, View, Marks, Range, Paths, Path, Grew, Kept, TablesAdded, Forked, ForkedMarks, CowedMarks, Cowed;
    MarksKeys(m.leaf);
    RangeWithin(p, 0, i + 1, n);
    RangeWithin(c, 0, i + 1, n);
    ForkedMarksStep(Marks(m.leaf), p, c, i);
    MarksDrop(m2.leaf, Range(c, 0, i));
  }

  // Giving page-table pages back.

  function TablesOf(tables: set<Table>, p: Pid): set<Table> {
    set t | t in tables && t.pid == p
  }

  predicate Leafless(leaf: map<Key, Pte>, p: Pid) {
    forall k :: k in leaf ==> k.pid != p
  }

  /** No page-table page has its entry in t. */
  predicate Childless(tables: set<Table>, t: Table) {
    forall u :: u in tables && u != t ==> HasParent(tables, u) ==> HasParent(tables - {t}, u)
  }

  ghost predicate TablesDropped(m: Mem, m': Mem, ts: set<Table>) {
    && Good(m) && Good(m') && View(m') == View(m) && m'.leaf == m.leaf && Kept(m, m')
    && ts <= m.tables.Keys && m'.tables == m.tables - ts && |m'.freelist| == |m.freelist| + |ts|
  }

  lemma FreeTableDrops(m: Mem, t: Table)
    requires Good(m) && t in m.tables && Leafless(m.leaf, t.pid) && Childless(m.tables.Keys, t)
    ensures m.tables[t] in m.count && TablesDropped(m, Freed(m.(tables := m.tables - {t}), m.tables[t]), {t})
  {
    hide Inv, View, PathsOk, WholeFrames, InPlace, Kept;
    FreeTableGood(m, t);
  }

  lemma DropNoTables(m: Mem)
    requires Good(m)
    ensures TablesDropped(m, m, {})
  {
    hide Good, View;
    assert m.tables - {} == m.tables;
  }

  lemma DroppedFacts(m: Mem, m': Mem, ts: set<Table>)
    requires TablesDropped(m, m', ts)
    ensures Good(m') && m'.leaf == m.leaf && m'.tables.Keys == m.tables.Keys - ts
  {
    hide Good, View, Kept;
  }

  lemma DropTables(m: Mem, m1: Mem, m2: Mem, ts: set<Table>, t: Table)
    requires TablesDropped(m, m1, ts) && TablesDropped(m1, m2, {t})
    ensures TablesDropped(m, m2, ts + {t})
  {
    DropTree(m, m1, m2, ts, {t});
  }

  lemma DropTree(m: Mem, m1: Mem, m2: Mem, ts: set<Table>, us: set<Table>)
    requires TablesDropped(m, m1, ts) && TablesDropped(m1, m2, us)
    ensures TablesDropped(m, m2, ts + us)
  {
    hide Good, View, Kept;
    KeptTwice(m, m1, m2);
    DropSets(m.tables, ts, us);
  }

  lemma DropSets(tables: map<Table, Frame>, ts: set<Table>, us: set<Table>)
    requires us <= (tables - ts).Keys
    ensures tables - ts - us == tables - (ts + us) && |ts + us| == |ts| + |us|
  {
    assert ts !! us;
  }

  /** The first n children of page i of the middle level. */
  function Lows(tables: set<Table>, p: Pid, i: nat, n: nat): set<Table> {
    set t | t in tables && t.Low? && t.pid == p && 512 * i <= t.i < 512 * i + n
  }

  function MidTree(tables: set<Table>, p: Pid, i: nat): set<Table> {
    Lows(tables, p, i, 512) + {Mid(p, i)}
  }

  lemma LowsNone(tables: set<Table>, p: Pid, i: nat)
    ensures Lows(tables, p, i, 0) == {}
  {
  }

  lemma LowsNext(tables: set<Table>, p: Pid, i: nat, j: nat)
    ensures var t := Low(p, 512 * i + j);
            && (t in tables ==> Lows(tables, p, i, j + 1) == Lows(tables, p, i, j) + {t})
            && (t !in tables ==> Lows(tables, p, i, j + 1) == Lows(tables, p, i, j))
            && (t in tables <==> t in tables - Lows(tables, p, i, j))
  {
  }

  lemma LowChildless(tables: set<Table>, p: Pid, i: nat)
    ensures Childless(tables, Low(p, i))
  {
  }

  lemma MidLast(tables: set<Table>, p: Pid, i: nat)
    requires Mid(p, i) in tables
    ensures Mid(p, i) in tables - Lows(tables, p, i, 512) && Childless(tables - Lows(tables, p, i, 512), Mid(p, i))
  {
    var rest := tables - Lows(tables, p, i, 512);
    forall u | u in tables && u.Low? && u.pid == p && u.i / 512 == i
      ensures u in Lows(tables, p, i, 512)
    {
    }
  }

  /** The trees below the first n entries of the root. */
  function Unders(tables: set<Table>, p: Pid, n: nat): set<Table> {
    set t | t in tables && t.pid == p && ((t.Mid? && t.i < n) || (t.Low? && t.i / 512 < n))
  }

  lemma UndersNone(tables: set<Table>, p: Pid)
    ensures Unders(tables, p, 0) == {}
  {
  }

  lemma GoodTreed(m: Mem)
    requires Good(m)
    ensures Treed(m.tables.Keys)
  {
  }

  /** The next entry of the root: a tree, or nothing. */
  lemma UndersNext(tables: set<Table>, now: set<Table>, p: Pid, i: nat)
    requires Treed(tables) && now == tables - Unders(tables, p, i)
    ensures Mid(p, i) in now ==> Unders(tables, p, i + 1) == Unders(tables, p, i) + MidTree(now, p, i)
    ensures Mid(p, i) !in now ==> Unders(tables, p, i + 1) == Unders(tables, p, i)
  {
    var next := Unders(tables, p, i) + if Mid(p, i) in now then MidTree(now, p, i) else {};
    forall t: Table
      ensures t in Unders(tables, p, i + 1) <==> t in next
    {
      if t in tables && t.pid == p {
        assert HasParent(tables, t);
        if t.Low? && t.i / 512 == i {
          assert Mid(p, i) in tables && 512 * i <= t.i < 512 * i + 512;
          assert Mid(p, i) in now && t in now && t in Lows(now, p, i, 512);
        }
      }
    }
  }

  lemma RootLast(tables: set<Table>, now: set<Table>, p: Pid)
    requires Treed(tables) && Root(p) in tables && now == tables - Unders(tables, p, 512)
    ensures Root(p) in now && Childless(now, Root(p)) && Unders(tables, p, 512) + {Root(p)} == TablesOf(tables, p)
  {
    forall t | t in tables && t.pid == p && t != Root(p)
      ensures t in Unders(tables, p, 512)
    {
      assert HasParent(tables, t);
      if t.Low? {
        assert HasParent(tables, Mid(p, t.i / 512));
      }
    }
  }

  /** The page-table pages of an empty process. */
  function Top(p: Pid): set<Table> {
    {Root(p)} + Path(Key(p, MAXPAGE - 1))
  }

  lemma TopFacts(tables: set<Table>, p: Pid)
    requires TablesOf(tables, p) == {}
    ensures Root(p) !in tables && Top(p) !! tables && |Path(Key(p, MAXPAGE - 1)) - (tables + {Root(p)})| == 2
  {
    forall t | t in Top(p)
      ensures t !in tables
    {
      assert t.pid == p && t !in TablesOf(tables, p);
    }
    var k := Key(p, MAXPAGE - 1);
    assert Path(k) - (tables + {Root(p)}) == {MidOf(k)} + {LowOf(k)};
  }

  lemma TopRoot(m: Mem, m1: Mem, p: Pid)
    requires Walks(m, m1, {Root(p)}) && m1.tables.Keys == m.tables.Keys + {Root(p)} && Root(p) !in m.tables
    ensures Good(m1) && Root(p) in m1.tables && |m1.freelist| == |m.freelist| - 1
  {
    hide Good, View, Kept, HeldSame, Grew;
  }

  lemma TopPath(m: Mem, m1: Mem, m2: Mem, p: Pid, ok: bool)
    requires Walks(m, m1, {Root(p)}) && Root(p) in m1.tables && m1.tables.Keys == m.tables.Keys + {Root(p)}
    requires Walks(m1, m2, Path(Key(p, MAXPAGE - 1))) && (ok ==> m2.tables.Keys == m1.tables.Keys + Path(Key(p, MAXPAGE - 1)))
    ensures Unseen(m, m2, Top(p)) && (ok ==> m2.tables.Keys == m.tables.Keys + Top(p))
    ensures Good(m2) && Root(p) in m2.tables && m2.leaf == m.leaf
  {
    hide Good, View, Kept, HeldSame, Grew, Path;
    KeptTwice(m, m1, m2);
    GrewBoth(m.tables, m1.tables, m2.tables, {Root(p)}, Path(Key(p, MAXPAGE - 1)));
    GrewKeys(m1.tables, m2.tables, Path(Key(p, MAXPAGE - 1)));
  }

  lemma GrewKeys(tables: map<Table, Frame>, tables': map<Table, Frame>, more: set<Table>)
    requires Grew(tables, tables', more)
    ensures tables.Keys <= tables'.Keys <= tables.Keys + more
  {
  }

  lemma TopUndone(m: Mem, m2: Mem, m3: Mem, p: Pid)
    requires TablesOf(m.tables.Keys, p) == {} && Unseen(m, m2, Top(p)) && TablesDropped(m2, m3, TablesOf(m2.tables.Keys, p))
    ensures m3.tables.Keys == m.tables.Keys && Unseen(m, m3, Top(p))
  {
    hide Good, View, Kept, Top;
    KeptTwice(m, m2, m3);
    TopGone(m.tables, m2.tables, p);
    SameCount(m, m3);
  }

  lemma TopGone(tables: map<Table, Frame>, tables2: map<Table, Frame>, p: Pid)
    requires TablesOf(tables.Keys, p) == {} && Grew(tables, tables2, Top(p))
    ensures tables2 - TablesOf(tables2.Keys, p) == tables && Grew(tables, tables, Top(p))
  {
    forall t | t in tables
      ensures t.pid != p
    {
      assert t !in TablesOf(tables.Keys, p);
    }
  }
}

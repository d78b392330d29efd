/**
 The calls of kernel/kalloc.c and kernel/vm.c on user memory, as methods over the state of CowMemory. Each call is specified
 by what it does to the processes' views and to the marks in their PTEs, by exactly when it succeeds, and by where every
 frame is afterwards.
 */
module UserVm {
  import opened Collections
  import opened CowMemory
  import opened UserPages

  class Vm {
    var freelist: seq<Frame>
    var count: map<Frame, nat>
    var frames: map<Frame, Page>
    var leaf: map<Key, Pte>
    var tables: map<Table, Frame>
    ghost var kernel: set<Frame>

    /** kinit: frees every frame of the pool into an empty list. */
    constructor (pool: seq<Frame>)
      requires Distinct(pool)
      ensures Valid() && leaf == map[] && tables == map[] && Views() == map[]
      ensures |freelist| == |pool| && frames.Keys == Elems(pool) && Loose(State()) == {}
    {
      freelist, leaf, tables := [], map[], map[];
      count := map f | f in pool :: 0;
      frames := map f | f in pool :: Filled(0);
      kernel := Elems(pool);
      new;
      AllHeldGood(State());
      var i := 0;
      while i < |pool|
        invariant 0 <= i <= |pool| && |freelist| == i
        invariant Valid() && leaf == map[] && tables == map[] && frames.Keys == Elems(pool)
        invariant Loose(State()) == Elems(pool[i..])
      {
        hide Good, Loose;
        assert pool[i..] == [pool[i]] + pool[i + 1..];
        assert Elems(pool[i..]) == {pool[i]} + Elems(pool[i + 1..]) && pool[i] !in pool[i + 1..];
        FreeOwnedGood(State(), pool[i]);
        Kfree(pool[i]);
        i := i + 1;
      }
      assert pool[i..] == [];
    }

    ghost function State(): Mem
      reads this
    {
      Mem(freelist, count, frames, leaf, tables, kernel)
    }

    ghost predicate Valid()
      reads this
    {
      Good(State())
    }

    ghost function Views(): map<Key, Page>
      reads this
      requires Valid()
    {
      View(State())
    }

    method Kalloc() returns (f: Option<Frame>)
      requires Valid()
      modifies this
      ensures old(freelist) == [] ==> f == None && State() == old(State())
      ensures old(freelist) != [] ==> f == Some(old(freelist)[0]) && State() == Popped(old(State()))
    {
      if freelist == [] {
        return None;
      }
      var r := freelist[0];
      freelist := freelist[1..];
      count := count[r := 0];
      frames := frames[r := Filled(5)];
      kernel := kernel + {r};
      f := Some(r);
    }

    /** Drop one reference to f; free it if that was the last. */
    method Kfree(f: Frame)
      requires f in count
      modifies this`freelist, this`count, this`frames, this`kernel
      ensures State() == Freed(old(State()), f)
    {
      if count[f] > 0 {
        count := count[f := count[f] - 1];
        return;
      }
      frames := frames[f := Filled(1)];
      freelist := [f] + freelist;
      kernel := kernel - {f};
    }

    /** One level of walk: make sure page-table page t exists. */
    method WalkLevel(t: Table, alloc: bool) returns (ok: bool)
      requires Valid() && (alloc ==> HasParent(tables.Keys, t))
      modifies this
      ensures ok == (t in old(tables) || (alloc && old(freelist) != []))
      ensures !alloc || !ok ==> State() == old(State())
      ensures Walks(old(State()), State(), {t}) && tables.Keys == old(tables).Keys + (if ok then {t} else {})
    {
      hide Good, Walks, HasParent, Filled;
      WalksSelf(State(), {t});
      if t in tables {
        assert tables.Keys + {t} == tables.Keys;
        return true;
      }
      if !alloc {
        return false;
      }
      var f := Kalloc();
      if f.None? {
        return false;
      }
      frames := frames[f.value := Filled(0)];
      tables := tables[t := f.value];
      NewTableWalks(old(State()), t);
      ok := true;
    }

    /**
     Find, or with alloc create, the page-table pages on the way to page k: that succeeds exactly if there are frames for
     those missing.
     */
    method Walk(k: Key, alloc: bool) returns (ok: bool)
      requires Valid() && k.page < MAXPAGE && (alloc ==> Root(k.pid) in tables)
      modifies this
      ensures ok <==> HasPath(tables, k)
      ensures ok <==> |Path(k) - old(tables).Keys| <= if alloc then |old(freelist)| else 0
      ensures !alloc ==> State() == old(State())
      ensures Walks(old(State()), State(), Path(k)) && (ok ==> tables.Keys == old(tables).Keys + Path(k))
    {
      hide Good, Walks, MidOf, LowOf, HasParent, Passed, Path, HasPath;
      ghost var m := State();
      PassedStart(m, k);
      var level := 2;
      while level > 0
        invariant 0 <= level <= 2
        invariant Passed(m, State(), k, level) && (!alloc ==> State() == m)
      {
        ghost var before := State();
        PassedParent(m, before, k, level);
        var found := WalkLevel(if level == 2 then MidOf(k) else LowOf(k), alloc);
        if !found {
          PassedFails(m, State(), k, level, alloc);
          return false;
        }
        PassedNext(m, before, State(), k, level);
        level := level - 1;
      }
      ok := true;
      PassedEnds(m, State(), k);
    }

    /**
     mappages for one page. between is the state after walk, which differs from the old one only in page-table
     pages; on success the mapping has been added to it.
     */
    method MapPage(k: Key, pte: Pte) returns (ok: bool, ghost between: Mem)
      requires Valid() && k !in leaf && k.page < MAXPAGE && Root(k.pid) in tables
      modifies this
      ensures ok <==> |Path(k) - old(tables).Keys| <= |old(freelist)|
      ensures Walks(old(State()), between, Path(k)) && (ok ==> between.tables.Keys == old(tables).Keys + Path(k))
      ensures ok <==> HasPath(between.tables, k)
      ensures State() == if ok then Mapped(between, k, pte) else between
    {
      hide Good, Walks;
      ok := Walk(k, true);
      between := State();
      if ok {
        leaf := leaf[k := pte];
        kernel := kernel - {pte.frame};
      }
    }

    /** dup_pg past its checks: give page k a frame of its own, if there is one. */
    method Duplicate(k: Key) returns (ok: bool)
      requires Valid() && k in leaf
      modifies this
      ensures ok == (old(freelist) != [])
      ensures State() == if ok then Duplicated(old(State()), k) else old(State())
    {
      hide Good, View;
      DuplicateDefined(State(), k);
      var mem := Kalloc();
      if mem.None? {
        return false;
      }
      var src := leaf[k].frame;
      frames := frames[mem.value := frames[src]];
      leaf := leaf[k := Pte(mem.value, true, true, true, true, false)];
      kernel := kernel - {mem.value};
      Kfree(src);
      ok := true;
    }

    /** The cases that dup_pg refuses: out of range, no page-table page, or a COW page the user may not access. */
    ghost predicate Refused(p: Pid, va: nat)
      reads this
    {
      var k := Key(p, va / PGSIZE);
      va >= MAXVA || va == 0 || !HasPath(tables, k) || (IsCow(leaf, k) && !leaf[k].u)
    }

    method DupPg(p: Pid, va: nat) returns (r: int)
      requires Valid()
      modifies this
      ensures r == -1 <==> old(Refused(p, va))
      ensures r == -2 <==> !old(Refused(p, va)) && old(IsCow(leaf, Key(p, va / PGSIZE)) && freelist == [])
      ensures r == 0 || r == -1 || r == -2
      ensures State() == if r == 0 && IsCow(old(leaf), Key(p, va / PGSIZE))
                         then Duplicated(old(State()), Key(p, va / PGSIZE)) else old(State())
      ensures Valid() && Views() == old(Views()) && Kept(old(State()), State())
    {
      hide Inv, WholeFrames, View, Duplicated, Kept;
      KeptSelf(State());
      var k := Key(p, va / PGSIZE);
      if va >= MAXVA || va == 0 {
        return -1;
      }
      var found := Walk(k, false);
      if !found {
        return -1;
      }
      if k !in leaf || !leaf[k].cow {
        return 0;
      }
      if !leaf[k].u {
        return -1;
      }
      if freelist != [] {
        DuplicateGood(State(), k);
      }
      var ok := Duplicate(k);
      r := if ok then 0 else -2;
    }

    /** walkaddr: the frame behind a user page. */
    method WalkAddr(p: Pid, va: nat) returns (f: Option<Frame>)
      requires Valid()
      modifies this
      ensures State() == old(State())
      ensures f == if Readable(Marks(leaf), p, va) then Some(leaf[Key(p, va / PGSIZE)].frame) else None
    {
      hide Inv, WholeFrames, Walks;
      var k := Key(p, va / PGSIZE);
      if va >= MAXVA {
        return None;
      }
      var found := Walk(k, false);
      if !found || k !in leaf || !leaf[k].u {
        return None;
      }
      f := Some(leaf[k].frame);
    }

    /** A page that copyout cannot write: page 0, no user page, or shared with no frame left for a copy. */
    ghost predicate Unwritable(p: Pid, va: nat)
      reads this
    {
      Denied(Marks(leaf), p, va) || (IsCow(leaf, Key(p, va / PGSIZE)) && freelist == [])
    }

    /** One iteration of copyout: chunk stays inside the page of dstva. */
    method CopyoutPage(p: Pid, dstva: nat, chunk: seq<int>) returns (ok: bool)
      requires Valid() && dstva % PGSIZE + |chunk| <= PGSIZE
      modifies this
      ensures ok <==> !old(Unwritable(p, dstva))
      ensures if ok then PageCopied(old(State()), State(), p, dstva, chunk) else State() == old(State())
    {
      hide Good, View, Patch, PageCopied, Duplicated;
      var va0 := dstva - dstva % PGSIZE;
      var k := Key(p, dstva / PGSIZE);
      PageStart(dstva);
      ghost var m := State();
      if k in leaf {
        DuplicateDefined(m, k);
        PathOf(m, k);
        if leaf[k].cow && freelist != [] {
          DuplicateGood(m, k);
        }
      }
      var dup := DupPg(p, va0);
      if dup < 0 {
        return false;
      }
      var pa0 := WalkAddr(p, va0);
      if pa0.None? {
        return false;
      }
      CopiedPageGood(m, State(), p, dstva, chunk);
      var page := Patch(frames[pa0.value], k.page * PGSIZE, dstva, chunk);
      frames := frames[pa0.value := page];
      ok := true;
    }

    /** How far copyout will get. */
    ghost function Reaches(p: Pid, dstva: nat, len: nat): nat
      reads this
    {
      Reach(Marks(leaf), Alone(leaf), |freelist|, p, dstva, len)
    }

    method Copyout(p: Pid, dstva: nat, src: seq<int>) returns (r: int, done: nat)
      requires Valid()
      modifies this
      ensures Valid() && Kept(old(State()), State()) && tables == old(tables)
      ensures done == old(Reaches(p, dstva, |src|)) <= |src|
      ensures r == if done == |src| then 0 else -1
      ensures r == -1 ==> Unwritable(p, dstva + done)
      ensures |src| > 0 && dstva < PGSIZE ==> r == -1 && done == 0
      ensures Views() == Write(old(Views()), p, dstva, src[..done])
      ensures Marks(leaf) == WrittenMarks(Marks(old(leaf)), p, dstva, done)
    {
      hide Good, View, Write, Kept, WrittenMarks, Alone, Marks, Copied, PageCopied, Reach, IsCow;
      ghost var m := State();
      var va, n := dstva, 0;
      CopiedNothing(m, p, dstva, src);
      done := 0;
      while n < |src|
        invariant n == done <= |src| && va == dstva + n
        invariant Copied(m, State(), p, dstva, src, n)
        decreases |src| - n
      {
        var len := Chunk(va, |src| - n);
        ghost var before := State();
        CopiedFacts(m, before, p, dstva, src, n);
        var ok := CopyoutPage(p, va, src[n..n + len]);
        if !ok {
          CopiedEnds(m, before, p, dstva, src, n);
          return -1, n;
        }
        CopiedMore(m, before, State(), p, dstva, src, n);
        n, va, done := n + len, va + len, n + len;
      }
      CopiedFacts(m, State(), p, dstva, src, n);
      CopiedEnds(m, State(), p, dstva, src, n);
      r := 0;
    }

    /** A user store: through a writable page at once, otherwise after a page fault that dup_pg resolves. */
    method StoreByte(p: Pid, va: nat, b: int) returns (ok: bool)
      requires Valid()
      modifies this
      ensures ok == CanStore(Marks(old(leaf)), |old(freelist)|, p, va)
      ensures if ok then PageCopied(old(State()), State(), p, va, [b]) else State() == old(State())
    {
      hide Good, View, Patch, PageCopied, Duplicated;
      ghost var m := State();
      var k := Key(p, va / PGSIZE);
      if k in leaf {
        DuplicateDefined(m, k);
        PathOf(m, k);
        if leaf[k].cow && freelist != [] {
          DuplicateGood(m, k);
        }
        CowReadOnly(m, k);
      }
      if va >= MAXVA {
        return false;
      }
      if k !in leaf || !leaf[k].u || !leaf[k].w {
        var r := DupPg(p, va);
      }
      if k !in leaf || !leaf[k].u || !leaf[k].w {
        return false;
      }
      CopiedPageGood(m, State(), p, va, [b]);
      frames := frames[leaf[k].frame := Patch(frames[leaf[k].frame], k.page * PGSIZE, va, [b])];
      ok := true;
    }

    /** A user load. */
    method LoadByte(p: Pid, va: nat) returns (b: Option<int>)
      requires Valid()
      ensures b == if CanLoad(Marks(leaf), p, va) then Some(ByteAt(Views(), p, va)) else None
    {
      hide Good, View;
      var k := Key(p, va / PGSIZE);
      if va >= MAXVA || k !in leaf || !leaf[k].u || !leaf[k].r {
        return None;
      }
      FrameIsView(State(), k);
      var bytes := frames[leaf[k].frame].bytes;
      b := Some(if va % PGSIZE < |bytes| then bytes[va % PGSIZE] else 0);
    }

    /** A user instruction fetch. */
    method FetchByte(p: Pid, va: nat) returns (b: Option<int>)
      requires Valid()
      ensures b == if CanFetch(Marks(leaf), p, va) then Some(ByteAt(Views(), p, va)) else None
    {
      hide Good, View;
      var k := Key(p, va / PGSIZE);
      if va >= MAXVA || k !in leaf || !leaf[k].u || !leaf[k].x {
        return None;
      }
      FrameIsView(State(), k);
      var bytes := frames[leaf[k].frame].bytes;
      b := Some(if va % PGSIZE < |bytes| then bytes[va % PGSIZE] else 0);
    }

    /** copyin: read len bytes at srcva, stopping at the first page that is not mapped for the user. */
    method Copyin(p: Pid, srcva: nat, len: nat) returns (r: int, dst: seq<int>)
      requires Valid()
      modifies this
      ensures State() == old(State()) && SeenAt(Marks(leaf), Views(), p, srcva, dst)
      ensures (r == 0 && |dst| == len) || (r == -1 && |dst| < len && !Readable(Marks(leaf), p, srcva + |dst|))
    {
      hide Good, View, Marks, SeenAt;
      ghost var m := State();
      GoodLeaf(m);
      SeenNothing(Marks(leaf), Views(), p, srcva);
      dst := [];
      while |dst| < len
        invariant |dst| <= len && State() == m && SeenAt(Marks(leaf), Views(), p, srcva, dst)
        decreases len - |dst|
      {
        var va := srcva + |dst|;
        PageStart(va);
        var pa := WalkAddr(p, va - va % PGSIZE);
        if pa.None? {
          return -1, dst;
        }
        var n := Chunk(va, len - |dst|);
        ChunkEnds(va, len - |dst|);
        MarksAt(leaf, Key(p, va / PGSIZE));
        FrameIsView(m, Key(p, va / PGSIZE));
        WholeViews(m);
        SeesChunk(m, p, srcva, dst, n);
        dst := dst + frames[pa.value].bytes[va % PGSIZE..va % PGSIZE + n];
      }
      r := 0;
    }

    /** uvmunmap with do_free: the pages first to first + npages - 1 must be mapped. */
    method Uvmunmap(p: Pid, first: nat, npages: nat)
      requires Valid() && Range(p, first, npages) <= leaf.Keys
      modifies this
      ensures Dropped(old(State()), State(), Range(p, first, npages))
    {
      hide Good, Range, Dropped, Unmapped;
      ghost var m := State();
      DropNothing(m, p, first);
      var n := 0;
      while n < npages
        invariant 0 <= n <= npages && Dropped(m, State(), Range(p, first, n))
      {
        var k := Key(p, first + n);
        RangeStep(p, first, n);
        RangeWithin(p, first, n, npages);
        ghost var before := State();
        DropMore(m, before, Range(p, first, n), k);
        Kfree(leaf[k].frame);
        leaf := leaf - {k};
        UnmappedIs(before, State(), k);
        n := n + 1;
      }
    }

    /** Shrink from oldsz to newsz bytes; the pages in between must be mapped. */
    method Uvmdealloc(p: Pid, oldsz: nat, newsz: nat) returns (r: nat)
      requires Valid() && Range(p, Pages(newsz), Pages(oldsz) - Pages(newsz)) <= leaf.Keys
      modifies this
      ensures r == if newsz >= oldsz then oldsz else newsz
      ensures Dropped(old(State()), State(), Range(p, Pages(newsz), Pages(oldsz) - Pages(newsz)))
    {
      hide Good, Range, Dropped;
      if newsz >= oldsz {
        NoPaths(p, Pages(newsz), Pages(oldsz) - Pages(newsz));
        DropNothing(State(), p, Pages(newsz));
        return oldsz;
      }
      if Pages(newsz) < Pages(oldsz) {
        Uvmunmap(p, Pages(newsz), Pages(oldsz) - Pages(newsz));
      } else {
        NoPaths(p, Pages(newsz), Pages(oldsz) - Pages(newsz));
        DropNothing(State(), p, Pages(newsz));
      }
      r := newsz;
    }

    /** One iteration of uvmalloc: a zeroed page at k; or nothing is mapped, and kalloc's frame is given back. */
    method AllocPage(k: Key, w: bool, x: bool) returns (ok: bool)
      requires Valid() && k !in leaf && Root(k.pid) in tables
      requires |frames.Keys| <= NFRAMES && Range(k.pid, 0, k.page) <= leaf.Keys
      modifies this
      ensures ok <==> 1 + |Path(k) - old(tables).Keys| <= |old(freelist)|
      ensures if ok then PageAdded(old(State()), State(), k, w, x) else Unseen(old(State()), State(), Path(k))
    {
      hide Good, View, Walks, Unseen, PageAdded, Popped, Filled, Path, Mapped, Freed, Range, FrameTaken;
      ghost var m := State();
      var mem := Kalloc();
      if mem.None? {
        UnseenSelf(m, Path(k));
        return false;
      }
      var f := mem.value;
      frames := frames[f := Filled(0)];
      ghost var m1 := State();
      ZeroFrame(m, m1, k);
      var pte := Pte(f, true, w, x, true, false);
      ghost var between;
      ok, between := MapPage(k, pte);
      if ok {
        AllocAdds(m, m1, between, k, pte);
      } else {
        AllocUndone(m, m1, between, f, Path(k));
        Kfree(f);
      }
    }

    /** The loop of uvmalloc over pages first to last - 1, undone if it cannot be finished. */
    method AllocRange(p: Pid, first: nat, last: nat, w: bool, x: bool) returns (ok: bool)
      requires Valid() && first <= last && Root(p) in tables && Range(p, first, last - first) !! leaf.Keys
      requires |frames.Keys| <= NFRAMES && Range(p, 0, first) <= leaf.Keys
      modifies this
      ensures ok <==> Need(old(tables).Keys, p, first, last - first) <= |old(freelist)|
      ensures if ok then RangeAdded(old(State()), State(), p, first, last - first, w, x)
              else Unseen(old(State()), State(), Paths(p, first, last - first))
    {
      hide Good, RangeAdded, PageAdded, Unseen, Dropped, Range, Path, Paths, Need;
      ghost var m := State();
      var n := 0;
      AddedNothing(m, p, first, w, x);
      while first + n < last
        invariant first + n <= last && RangeAdded(m, State(), p, first, n, w, x)
      {
        ghost var before := State();
        AddedFacts(m, before, p, first, n, last - first, w, x);
        var mapped := AllocPage(Key(p, first + n), w, x);
        ghost var after := State();
        if !mapped {
          AddedShort(m, before, after, p, first, n, last - first, w, x);
          Uvmunmap(p, first, n);
          AddedUndone(m, before, after, State(), p, first, n, last - first, w, x);
          return false;
        }
        AddedMore(m, before, after, p, first, n, w, x);
        n := n + 1;
      }
      AddedEnough(m, State(), p, first, n, w, x);
      ok := true;
    }

    /**
     Grow from oldsz to newsz bytes with zeroed pages; 0 reports failure, after which nothing new is mapped and every frame
     but those of new page-table pages has been given back. Exactly how many frames it takes.
     */
    method Uvmalloc(p: Pid, oldsz: nat, newsz: nat, w: bool, x: bool) returns (r: nat, ghost ok: bool)
      requires Valid() && Root(p) in tables && Range(p, Pages(oldsz), Pages(newsz) - Pages(oldsz)) !! leaf.Keys
      requires |frames.Keys| <= NFRAMES && Range(p, 0, Pages(oldsz)) <= leaf.Keys
      modifies this
      ensures r == if newsz < oldsz then oldsz else if ok then newsz else 0
      ensures ok <==> newsz < oldsz || Need(old(tables).Keys, p, Pages(oldsz), Pages(newsz) - Pages(oldsz)) <= |old(freelist)|
      ensures if newsz < oldsz then State() == old(State())
              else if ok then RangeAdded(old(State()), State(), p, Pages(oldsz), Pages(newsz) - Pages(oldsz), w, x)
              else Unseen(old(State()), State(), Paths(p, Pages(oldsz), Pages(newsz) - Pages(oldsz)))
    {
      hide Good, RangeAdded, Unseen, Range, Paths, Need, Pages;
      if newsz < oldsz {
        return oldsz, true;
      }
      PagesGrow(oldsz, newsz);
      var grown := AllocRange(p, Pages(oldsz), Pages(newsz), w, x);
      r, ok := if grown then newsz else 0, grown;
    }

    /** One iteration of uvmcowpy: mark the parent's page and map its frame, counted, in the child. */
    method CowPage(k: Key, c: Key) returns (ok: bool)
      requires Valid() && k in leaf && c !in leaf && c.page == k.page < MAXPAGE && Root(c.pid) in tables
      modifies this
      ensures ok <==> |Path(c) - old(tables).Keys| <= |old(freelist)|
      ensures if ok then PageShared(old(State()), State(), k, c) else PageMarked(old(State()), State(), k, Path(c))
    {
      hide Good, View, Walks, PageMarked, PageShared, Path, Kept, LeafOk;
      ghost var m := State();
      FlagGood(m, k, leaf[k].(w := false, cow := true));
      GoodLeaf(m);
      leaf := leaf[k := leaf[k].(w := false, cow := true)];
      ghost var m1 := State();
      GoodLeaf(m1);
      var pte := leaf[k];
      ghost var between;
      ok, between := MapPage(c, pte);
      CowMarks(m, m1, between, k, Path(c));
      if ok {
        CowShares(m, m1, between, k, c);
        count := count[pte.frame := count[pte.frame] + 1];
      }
    }

    /**
     fork's copy: share the first Pages(sz) pages of parent p with child c, which has none yet. It succeeds exactly if there
     are frames for the child's page-table pages; otherwise the child has no page, and the parent's first upto pages are
     marked.
     */
    method Uvmcowpy(p: Pid, c: Pid, sz: nat) returns (ok: bool, ghost upto: nat)
      requires Valid() && p != c && Root(c) in tables && |frames.Keys| <= NFRAMES
      requires Range(p, 0, Pages(sz)) <= leaf.Keys && Range(c, 0, Pages(sz)) !! leaf.Keys
      modifies this
      ensures ok <==> |Paths(c, 0, Pages(sz)) - old(tables).Keys| <= |old(freelist)|
      ensures if ok then RangeShared(old(State()), State(), p, c, Pages(sz))
              else RangeMarked(old(State()), State(), p, upto, Paths(c, 0, Pages(sz)))
    {
      hide Good, RangeShared, PageShared, PageMarked, RangeMarked, Dropped, Range, Path, Paths;
      ghost var m := State();
      var i := 0;
      upto := 0;
      SharedNothing(m, p, c);
      while i * PGSIZE < sz
        invariant 0 <= i <= Pages(sz) && RangeShared(m, State(), p, c, i)
        decreases Pages(sz) - i
      {
        ghost var before := State();
        SharedFacts(m, before, p, c, i, Pages(sz));
        var mapped := CowPage(Key(p, i), Key(c, i));
        ghost var after := State();
        if !mapped {
          SharedShort(m, before, after, p, c, i, Pages(sz));
          Uvmunmap(c, 0, i);
          SharedUndone(m, before, after, State(), p, c, i, Pages(sz));
          return false, i + 1;
        }
        RangeWithin(p, 0, i + 1, Pages(sz));
        RangeWithin(c, 0, i + 1, Pages(sz));
        SharedMore(m, before, after, p, c, i);
        i := i + 1;
      }
      SharedEnough(m, State(), p, c, i);
      ok := true;
    }

    /** uvmclear: the user may no longer use the page. */
    method Uvmclear(k: Key)
      requires Valid() && k in leaf
      modifies this
      ensures Valid() && Views() == old(Views()) && Kept(old(State()), State())
      ensures tables == old(tables) && freelist == old(freelist)
      ensures Marks(leaf) == Marks(old(leaf))[k := Marks(old(leaf))[k].(u := false)]
    {
      hide Good, View, Kept;
      ghost var m := State();
      CowReadOnly(m, k);
      FlagGood(m, k, leaf[k].(u := false));
      MarksSet(leaf, k, leaf[k].(u := false));
      leaf := leaf[k := leaf[k].(u := false)];
    }

    /** uvmcreate: an empty page table. */
    method Uvmcreate(p: Pid) returns (ok: bool)
      requires Valid() && Root(p) !in tables
      modifies this
      ensures ok == (old(freelist) != [])
      ensures if ok then Walks(old(State()), State(), {Root(p)}) && tables.Keys == old(tables).Keys + {Root(p)}
              else State() == old(State())
    {
      hide Good, Walks, Filled;
      ghost var m := State();
      var mem := Kalloc();
      if mem.None? {
        return false;
      }
      frames := frames[mem.value := Filled(0)];
      tables := tables[Root(p) := mem.value];
      NewTableWalks(m, Root(p));
      ok := true;
    }

    /** One page-table page given back, when there is none below it. */
    method FreeTable(t: Table)
      requires Valid() && t in tables && Leafless(leaf, t.pid) && Childless(tables.Keys, t)
      modifies this
      ensures TablesDropped(old(State()), State(), {t})
    {
      hide Good, TablesDropped, Leafless, Childless;
      ghost var m := State();
      FreeTableDrops(m, t);
      var f := tables[t];
      tables := tables - {t};
      Kfree(f);
    }

    /** freewalk on the page for entry i of the root: its children, then itself. */
    method FreewalkMid(p: Pid, i: nat)
      requires Valid() && Mid(p, i) in tables && Leafless(leaf, p)
      modifies this
      ensures TablesDropped(old(State()), State(), MidTree(old(tables).Keys, p, i))
    {
      hide Good, TablesDropped, Leafless, Lows, Childless;
      ghost var m := State();
      ghost var ts := m.tables.Keys;
      DropNoTables(m);
      LowsNone(ts, p, i);
      var j := 0;
      while j < 512
        invariant 0 <= j <= 512 && TablesDropped(m, State(), Lows(ts, p, i, j))
      {
        ghost var before := State();
        DroppedFacts(m, before, Lows(ts, p, i, j));
        LowsNext(ts, p, i, j);
        if Low(p, 512 * i + j) in tables {
          LowChildless(tables.Keys, p, 512 * i + j);
          FreeTable(Low(p, 512 * i + j));
          DropTables(m, before, State(), Lows(ts, p, i, j), Low(p, 512 * i + j));
        }
        j := j + 1;
      }
      ghost var before := State();
      DroppedFacts(m, before, Lows(ts, p, i, 512));
      MidLast(ts, p, i);
      FreeTable(Mid(p, i));
      DropTables(m, before, State(), Lows(ts, p, i, 512), Mid(p, i));
    }

    /** freewalk: give back every page-table page of p, children before parents; its leaves must be gone. */
    method Freewalk(p: Pid)
      requires Valid() && Root(p) in tables && Leafless(leaf, p)
      modifies this
      ensures TablesDropped(old(State()), State(), TablesOf(old(tables).Keys, p))
    {
      hide Good, TablesDropped, Leafless, Unders, MidTree, TablesOf, Treed, Childless;
      ghost var m := State();
      ghost var ts := m.tables.Keys;
      GoodTreed(m);
      DropNoTables(m);
      UndersNone(ts, p);
      var i := 0;
      while i < 512
        invariant 0 <= i <= 512 && TablesDropped(m, State(), Unders(ts, p, i))
      {
        ghost var before := State();
        DroppedFacts(m, before, Unders(ts, p, i));
        UndersNext(ts, before.tables.Keys, p, i);
        if Mid(p, i) in tables {
          FreewalkMid(p, i);
          DropTree(m, before, State(), Unders(ts, p, i), MidTree(before.tables.Keys, p, i));
        }
        i := i + 1;
      }
      ghost var before := State();
      DroppedFacts(m, before, Unders(ts, p, 512));
      RootLast(ts, before.tables.Keys, p);
      FreeTable(Root(p));
      DropTables(m, before, State(), Unders(ts, p, 512), Root(p));
    }

    /**
     proc_pagetable: an empty page table with the page-table pages on the way to the trampoline and the trapframe, three frames;
     if they are not there, what was taken is given back.
     */
    method ProcPagetable(p: Pid) returns (ok: bool)
      requires Valid() && TablesOf(tables.Keys, p) == {} && Leafless(leaf, p)
      modifies this
      ensures ok <==> |old(freelist)| >= 3
      ensures Unseen(old(State()), State(), Top(p)) && tables.Keys == old(tables).Keys + if ok then Top(p) else {}
    {
      hide Good, Walks, Unseen, TablesDropped, Leafless, TablesOf, Top, Path;
      ghost var m := State();
      TopFacts(m.tables.Keys, p);
      var made := Uvmcreate(p);
      ghost var m1 := State();
      if !made {
        UnseenSelf(m, Top(p));
        return false;
      }
      TopRoot(m, m1, p);
      ok := Walk(Key(p, MAXPAGE - 1), true);
      ghost var m2 := State();
      TopPath(m, m1, m2, p, ok);
      if !ok {
        Freewalk(p);
        TopUndone(m, m2, State(), p);
      }
    }
  }
}

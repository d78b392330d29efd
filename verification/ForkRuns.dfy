/**
 Processes over user memory: allocproc, fork, growproc, exec's and exit's calls of kernel/vm.c, and the loads, fetches and
 stores of user code, in any order. They do what the first machine of EagerFork does, and no frame is ever lost.
 */
module ForkRuns {
  import opened Collections
  import opened CowMemory
  import opened UserPages
  import opened UserVm
  import opened EagerFork

  // The process table.

  predicate NoPages(keys: set<Key>, p: Pid) {
    forall k :: k in keys ==> k.pid != p
  }

  /** The pages of each process are those below its size; a process has all of them, or is hollow. */
  predicate Sized(keys: set<Key>, sz: map<Pid, nat>) {
    && (forall k :: k in keys ==> k.pid in sz && k.page < Pages(sz[k.pid]))
    && (forall p :: p in sz ==> Range(p, 0, Pages(sz[p])) <= keys || NoPages(keys, p))
  }

  predicate Rooted(tables: set<Table>, sz: map<Pid, nat>) {
    && (forall p :: p in sz ==> Top(p) <= tables)
    && (forall t :: t in tables ==> t.pid in sz)
  }

  /** Each process has a page table, its pages and a trapframe; and the kernel holds no other frame. */
  ghost predicate Ok(m: Mem, sz: map<Pid, nat>, trapframe: map<Pid, Frame>) {
    && Good(m) && |m.frames.Keys| <= NFRAMES
    && Rooted(m.tables.Keys, sz) && Sized(m.leaf.Keys, sz)
    && trapframe.Keys == sz.Keys && Injective(trapframe) && Loose(m) == trapframe.Values
  }

  /** No frame is lost: those that are free, page tables, mapped, or trapframes make up the memory. */
  lemma Conserved(m: Mem, sz: map<Pid, nat>, trapframe: map<Pid, Frame>)
    requires Ok(m, sz, trapframe)
    ensures |m.freelist| + |m.tables.Keys| + |MappedFrames(m.leaf)| + |sz.Keys| == |m.frames.Keys|
  {
    hide Good, Rooted, Sized, Loose, MappedFrames;
    GoodInv(m);
    FramesCounted(m);
    ValuesSize(trapframe);
  }

  /** What is left of the state when the numbers of frames are forgotten. */
  ghost function SnapOf(m: Mem, sz: map<Pid, nat>): Snap
    requires LeafOk(m)
  {
    Snap(View(m), Marks(m.leaf), Alone(m.leaf), |m.freelist|, m.tables.Keys, sz)
  }

  lemma OkRuns(m: Mem, sz: map<Pid, nat>, trapframe: map<Pid, Frame>, p: Pid)
    requires Ok(m, sz, trapframe) && p in sz
    ensures Key(p, 0) !in m.leaf && Pages(sz[p]) > 0 ==> NoPages(m.leaf.Keys, p)
    ensures !(Key(p, 0) !in m.leaf && Pages(sz[p]) > 0) ==> Range(p, 0, Pages(sz[p])) <= m.leaf.Keys
    ensures Root(p) in m.tables
  {
    hide Good, Injective, Pages;
    assert Root(p) in Top(p);
    if Pages(sz[p]) > 0 {
      assert Key(p, 0) in Range(p, 0, Pages(sz[p]));
    } else {
      NoPaths(p, 0, Pages(sz[p]));
    }
  }

  lemma OkAbsent(m: Mem, sz: map<Pid, nat>, trapframe: map<Pid, Frame>, p: Pid)
    requires Ok(m, sz, trapframe) && p !in sz
    ensures TablesOf(m.tables.Keys, p) == {} && Leafless(m.leaf, p) && NoPages(m.leaf.Keys, p)
  {
    hide Good, Injective, Pages;
  }

  /** The same pages and page-table pages. */
  lemma OkSame(m: Mem, m': Mem, sz: map<Pid, nat>, trapframe: map<Pid, Frame>)
    requires Ok(m, sz, trapframe) && Good(m') && Kept(m, m') && m'.leaf.Keys == m.leaf.Keys && m'.tables.Keys == m.tables.Keys
    ensures Ok(m', sz, trapframe)
  {
    hide Good, Rooted, Sized, Injective, Loose;
  }

  // allocproc.

  /** From m to m' process p has got a trapframe and an empty page table, or not. */
  ghost predicate ProcMade(m: Mem, m': Mem, p: Pid, tf: Option<Frame>) {
    && Good(m) && Good(m') && View(m') == View(m) && m'.leaf == m.leaf && m'.frames.Keys == m.frames.Keys
    && if tf.None?
       then m'.tables.Keys == m.tables.Keys && Loose(m') == Loose(m) && |m'.freelist| == |m.freelist|
       else
         && m'.tables.Keys == m.tables.Keys + Top(p)
         && Loose(m') == Loose(m) + {tf.value} && tf.value !in Loose(m)
         && |m'.freelist| + EMPTY == |m.freelist|
  }

  lemma TopSize(tables: set<Table>, p: Pid)
    requires TablesOf(tables, p) == {}
    ensures |tables + Top(p)| == |tables| + 3
  {
    TopFacts(tables, p);
    var k := Key(p, MAXPAGE - 1);
    assert Top(p) == {Root(p)} + {MidOf(k)} + {LowOf(k)};
    assert |tables + Top(p)| == |tables| + |Top(p)|;
  }

  lemma ProcAdds(m: Mem, m1: Mem, m2: Mem, p: Pid)
    requires Good(m) && m.freelist != [] && m1 == Popped(m) && TablesOf(m.tables.Keys, p) == {}
    requires Unseen(m1, m2, Top(p)) && m2.tables.Keys == m1.tables.Keys + Top(p)
    ensures ProcMade(m, m2, p, Some(m.freelist[0]))
  {
    hide Good, View, Loose, Grew, Top, TablesOf;
    PopGood(m);
    TopSize(m.tables.Keys, p);
  }

  lemma ProcUndone(m: Mem, m1: Mem, m2: Mem, p: Pid)
    requires Good(m) && m.freelist != [] && m1 == Popped(m)
    requires Unseen(m1, m2, Top(p)) && m2.tables.Keys == m1.tables.Keys + {}
    ensures m.freelist[0] in m2.count && ProcMade(m, Freed(m2, m.freelist[0]), p, None)
  {
    hide Good, View, Loose, Grew, Top, Freed;
    PopGood(m);
    FreeOwnedGood(m2, m.freelist[0]);
    assert m1.tables.Keys + {} == m1.tables.Keys;
  }

  class Processes {
    const vm: Vm
    /** p->sz and p->trapframe of each process. */
    var sz: map<Pid, nat>
    var trapframe: map<Pid, Frame>

    constructor (pool: seq<Frame>)
      requires Distinct(pool) && |pool| <= NFRAMES
      ensures Valid() && fresh(vm) && vm.frames.Keys == Elems(pool) && |vm.freelist| == |pool|
      ensures Now() == Snap(map[], map[], {}, |pool|, {}, map[])
    {
      vm := new Vm(pool);
      sz, trapframe := map[], map[];
      new;
      DistinctSize(pool);
      assert Marks(vm.leaf) == map[] && Alone(vm.leaf) == {} && vm.tables.Keys == {};
      assert trapframe.Values == {} && sz.Keys == {};
    }

    ghost predicate Valid()
      reads this, vm
    {
      Ok(vm.State(), sz, trapframe)
    }

    ghost function Now(): Snap
      reads this, vm
      requires Valid()
    {
      GoodLeaf(vm.State());
      SnapOf(vm.State(), sz)
    }

    /** allocproc, but for the fields of struct proc: four frames, or none. */
    method AllocProc(p: Pid) returns (tf: Option<Frame>)
      requires vm.Valid() && TablesOf(vm.tables.Keys, p) == {} && Leafless(vm.leaf, p)
      modifies vm
      ensures tf.Some? <==> |old(vm.freelist)| >= EMPTY
      ensures ProcMade(old(vm.State()), vm.State(), p, tf)
    {
      hide Good, View, Unseen, ProcMade, Popped, Freed, Top, TablesOf, Leafless;
      ghost var m := vm.State();
      tf := vm.Kalloc();
      if tf.None? {
        ProcNone(m, p);
        return;
      }
      ghost var m1 := vm.State();
      PoppedFacts(m);
      var ok := vm.ProcPagetable(p);
      ghost var m2 := vm.State();
      if ok {
        ProcAdds(m, m1, m2, p);
      } else {
        ProcUndone(m, m1, m2, p);
        vm.Kfree(tf.value);
        tf := None;
      }
    }

    /** userinit and exec's new image: a process without memory. */
    method DoCreate(p: Pid) returns (r: Out)
      requires Valid()
      modifies this, vm
      ensures Valid() && vm.frames.Keys == old(vm.frames.Keys) && Does(old(Now()), Now(), Create(p), r)
      ensures Costs(old(Now()), Now(), Create(p))
    {
      hide Good, View, LeafOk, Marks, Alone, Ok, ProcMade, Does, Costs;
      ghost var m, sz0, tf0 := vm.State(), sz, trapframe;
      OkGood(m, sz, trapframe);
      if p in sz {
        FailDoes(m, m, sz0, tf0, Create(p));
        return Fail;
      }
      OkAbsent(m, sz, trapframe, p);
      var tf := AllocProc(p);
      ghost var m' := vm.State();
      MadeFacts(m, m', p, tf);
      if tf.None? {
        MadeNothing(m, m', sz, trapframe, p);
        FailDoes(m, m', sz0, tf0, Create(p));
        return Fail;
      }
      CreateOk(m, m', sz, trapframe, p, 0, tf.value);
      sz, trapframe := sz[p := 0], trapframe[p := tf.value];
      CreateDoes(m, m', sz0, tf0, p, tf);
      r := Done;
    }

    /**
     fork, but for the registers, files and parent links of struct proc. The test of uvmcowpy's result is never true, so the
     child gets the parent's size whether or not it has the pages.
     */
    method DoFork(p: Pid, c: Pid) returns (r: Out)
      requires Valid()
      modifies this, vm
      ensures Valid() && vm.frames.Keys == old(vm.frames.Keys) && Does(old(Now()), Now(), Fork(p, c), r)
      ensures Costs(old(Now()), Now(), Fork(p, c))
      ensures Hollows(old(Now()), Fork(p, c)) ==> LeavesHollow(old(Now()), Now(), p, c)
    {
      hide Good, View, LeafOk, Marks, Alone, Ok, ProcMade, Does, LeavesHollow, RangeShared, RangeMarked, Pages, Range, Paths,
        CowOut, Hollows, TablesOf, Top, SnapOf, Costs;
      ghost var m := vm.State();
      OkGood(m, sz, trapframe);
      if p !in sz || c in sz || (Pages(sz[p]) > 0 && Key(p, 0) !in vm.leaf) {
        ForkFails(m, m, sz, trapframe, p, c);
        return Fail;
      }
      OkAbsent(m, sz, trapframe, c);
      var tf := AllocProc(c);
      ghost var m1 := vm.State();
      MadeFacts(m, m1, c, tf);
      if tf.None? {
        MadeNothing(m, m1, sz, trapframe, c);
        ForkFails(m, m1, sz, trapframe, p, c);
        return Fail;
      }
      ForkReady(m, m1, sz, trapframe, p, c, tf.value);
      var ok;
      ghost var upto;
      ok, upto := vm.Uvmcowpy(p, c, sz[p]);
      ForkDoes(m, m1, vm.State(), sz, trapframe, p, c, tf.value, ok, upto);
      sz, trapframe := sz[c := sz[p]], trapframe[c := tf.value];
      r := Done;
    }

    /** uvmalloc up to a larger size. */
    method GrowTo(p: Pid, newsz: nat, w: bool, x: bool) returns (ok: bool)
      requires Valid() && p in sz && newsz >= sz[p] && newsz > 0 && !(Pages(sz[p]) > 0 && Key(p, 0) !in vm.leaf)
      modifies this, vm
      ensures Valid() && vm.frames.Keys == old(vm.frames.Keys)
      ensures ok <==> NeedTo(old(Now()), p, newsz) <= old(Now()).free
      ensures SameSeen(Now(), if ok then SnapResized(old(Now()), p, newsz, w, x) else old(Now()))
      ensures ok ==> Now().free + NeedTo(old(Now()), p, newsz) == old(Now()).free
    {
      hide Good, View, LeafOk, Marks, Alone, Ok, RangeAdded, Unseen, Pages, Range, Paths, Need, ResizedTo, SameSeen;
      ghost var m := vm.State();
      OkGood(m, sz, trapframe);
      GrowReady(m, sz, trapframe, p, newsz);
      var size;
      ghost var grown;
      size, grown := vm.Uvmalloc(p, sz[p], newsz, w, x);
      if size == 0 {
        GrowFails(m, vm.State(), sz, trapframe, p, newsz);
      } else {
        GrowDoes(m, vm.State(), sz, trapframe, p, newsz, w, x);
        sz := sz[p := size];
      }
      ok := size != 0;
    }

    /** growproc. */
    method DoGrow(p: Pid, n: int) returns (r: Out)
      requires Valid()
      modifies this, vm
      ensures Valid() && vm.frames.Keys == old(vm.frames.Keys) && Does(old(Now()), Now(), Grow(p, n), r)
      ensures Costs(old(Now()), Now(), Grow(p, n))
    {
      hide Good, View, LeafOk, Marks, Alone, Ok, Dropped, Pages, Range, NeedTo, ResizedTo, Does, SameSeen, SnapResized, Costs;
      ghost var m, sz0, tf0 := vm.State(), sz, trapframe;
      OkGood(m, sz, trapframe);
      if p !in sz || (Pages(sz[p]) > 0 && Key(p, 0) !in vm.leaf) {
        NotRunning(m, sz, trapframe, Grow(p, n));
        return Fail;
      }
      if n > 0 {
        var ok := GrowTo(p, sz[p] + n, true, false);
        GrownDoes(m, sz0, tf0, Now(), p, n, ok);
        return if ok then Done else Fail;
      }
      if n < 0 && sz[p] + n >= 0 {
        ShrinkReady(m, sz, trapframe, p, sz[p] + n);
        var size := vm.Uvmdealloc(p, sz[p], sz[p] + n);
        ShrinkDoes(m, vm.State(), sz, trapframe, p, n);
        sz := sz[p := size];
      } else {
        SameDoes(m, sz, trapframe, p, n);
      }
      r := Done;
    }

    /** A segment or stack that exec adds. */
    method DoExtend(p: Pid, n: nat, w: bool, x: bool) returns (r: Out)
      requires Valid()
      modifies this, vm
      ensures Valid() && vm.frames.Keys == old(vm.frames.Keys) && Does(old(Now()), Now(), Extend(p, n, w, x), r)
      ensures Costs(old(Now()), Now(), Extend(p, n, w, x))
    {
      hide Good, View, LeafOk, Marks, Alone, Ok, Pages, Range, NeedTo, ResizedTo, Does, SameSeen, SnapResized, Costs;
      ghost var m, sz0, tf0 := vm.State(), sz, trapframe;
      OkGood(m, sz, trapframe);
      if p !in sz || (Pages(sz[p]) > 0 && Key(p, 0) !in vm.leaf) || sz[p] + n == 0 {
        NotRunning(m, sz, trapframe, Extend(p, n, w, x));
        return Fail;
      }
      var ok := GrowTo(p, sz[p] + n, w, x);
      ExtendDoes(m, sz0, tf0, Now(), p, n, w, x, ok);
      r := if ok then Done else Fail;
    }

    /** freeproc, on a process that has its pages. */
    method FreeProc(p: Pid) returns (ghost m1: Mem, ghost m2: Mem)
      requires p in sz && p in trapframe && !(Pages(sz[p]) > 0 && Key(p, 0) !in vm.leaf) && Valid()
      modifies vm
      ensures ProcFreed(old(vm.State()), m1, m2, vm.State(), p, Pages(sz[p]), trapframe[p])
    {
      hide Good, Ok, Dropped, TablesDropped, Pages, Range, Leafless, TablesOf, Released, Freed;
      ghost var m := vm.State();
      ExitFrees(m, sz, trapframe, p);
      vm.Kfree(trapframe[p]);
      m1 := vm.State();
      if sz[p] > 0 {
        vm.Uvmunmap(p, 0, Pages(sz[p]));
      } else {
        ExitEmpty(m1, p);
      }
      m2 := vm.State();
      ExitLeafless(m, m1, m2, sz, trapframe, p);
      vm.Freewalk(p);
    }

    /** exit, and wait's freeproc: a hollow process has no page 0 to unmap, and uvmunmap panics. */
    method DoExit(p: Pid) returns (r: Out)
      requires Valid()
      modifies this, vm
      ensures Valid() && vm.frames.Keys == old(vm.frames.Keys) && Does(old(Now()), Now(), Exit(p), r)
    {
      hide Good, View, LeafOk, Marks, Alone, Ok, Dropped, TablesDropped, Pages, Range, SnapOf, Does, TablesOf, Released;
      ghost var m := vm.State();
      OkGood(m, sz, trapframe);
      if p !in sz || (Pages(sz[p]) > 0 && Key(p, 0) !in vm.leaf) {
        NotExiting(m, sz, trapframe, p);
        return if p in sz then Panic else Fail;
      }
      OkTrapframe(m, sz, trapframe, p);
      ghost var m1, m2;
      m1, m2 := FreeProc(p);
      ExitDoes(m, m1, m2, vm.State(), sz, trapframe, p);
      sz, trapframe := sz - {p}, trapframe - {p};
      r := Done;
    }

    method DoStore(p: Pid, va: nat, b: int) returns (r: Out)
      requires Valid()
      modifies this, vm
      ensures Valid() && vm.frames.Keys == old(vm.frames.Keys) && Does(old(Now()), Now(), Store(p, va, b), r)
      ensures Now().free + 1 >= old(Now()).free
    {
      hide Good, View, LeafOk, Marks, Alone, Ok, Does, PageCopied, CanStore, Write, WrittenMarks;
      ghost var m := vm.State();
      OkGood(m, sz, trapframe);
      var ok := vm.StoreByte(p, va, b);
      StoreFree(m, vm.State(), p, va, b, ok);
      if ok {
        StoreDoes(m, vm.State(), sz, trapframe, p, va, b);
      } else {
        FailDoes(m, m, sz, trapframe, Store(p, va, b));
      }
      r := if ok then Done else Fail;
    }

    method DoCopyOut(p: Pid, va: nat, bytes: seq<int>) returns (r: Out)
      requires Valid()
      modifies this, vm
      ensures Valid() && vm.frames.Keys == old(vm.frames.Keys) && Does(old(Now()), Now(), CopyOut(p, va, bytes), r)
    {
      hide Good, View, LeafOk, Marks, Alone, Ok, Does, Write, WrittenMarks, Reach, Kept;
      ghost var m := vm.State();
      OkGood(m, sz, trapframe);
      var result, done := vm.Copyout(p, va, bytes);
      GoodLeaf(vm.State());
      CopyDoes(m, vm.State(), sz, trapframe, p, va, bytes, done);
      r := Count(done);
    }

    method DoClear(p: Pid, page: nat) returns (r: Out)
      requires Valid()
      modifies this, vm
      ensures Valid() && vm.frames.Keys == old(vm.frames.Keys) && Does(old(Now()), Now(), Clear(p, page), r)
    {
      hide Good, View, LeafOk, Marks, Alone, Ok, Does, Kept;
      ghost var m := vm.State();
      OkGood(m, sz, trapframe);
      MarksAt(vm.leaf, Key(p, page));
      if Key(p, page) !in vm.leaf {
        FailDoes(m, m, sz, trapframe, Clear(p, page));
        return Fail;
      }
      vm.Uvmclear(Key(p, page));
      GoodLeaf(vm.State());
      ClearDoes(m, vm.State(), sz, trapframe, p, page);
      r := Done;
    }

    method Do(op: Op) returns (r: Out)
      requires Valid()
      modifies this, vm
      ensures Valid() && vm.frames.Keys == old(vm.frames.Keys) && Does(old(Now()), Now(), op, r)
      ensures Costs(old(Now()), Now(), op)
      ensures Hollows(old(Now()), op) ==> LeavesHollow(old(Now()), Now(), op.p, op.c)
    {
      hide Ok, View, Marks, Alone, LeavesHollow, CowNext, CowOut;
      ghost var s := Now();
      OutOnly(s, op);
      match op
      case Create(p) => r := DoCreate(p);
      case Fork(p, c) => r := DoFork(p, c);
      case Load(p, va) =>
        OkGood(vm.State(), sz, trapframe);
        LoadDoes(vm.State(), sz, trapframe, p, va);
        var b := vm.LoadByte(p, va);
        r := if b.Some? then Byte(b.value) else Fail;
      case Fetch(p, va) =>
        OkGood(vm.State(), sz, trapframe);
        LoadDoes(vm.State(), sz, trapframe, p, va);
        var b := vm.FetchByte(p, va);
        r := if b.Some? then Byte(b.value) else Fail;
      case Store(p, va, b) => r := DoStore(p, va, b);
      case CopyOut(p, va, bytes) => r := DoCopyOut(p, va, bytes);
      case Grow(p, n) => r := DoGrow(p, n);
      case Extend(p, n, w, x) => r := DoExtend(p, n, w, x);
      case Clear(p, page) => r := DoClear(p, page);
      case Exit(p) => r := DoExit(p);
    }

    /**
     Any sequence of operations, up to a panic of the kernel. outs are their outcomes, snaps the states between them, es those
     of the reference machine; RunAgrees says what this means. And no frame is lost.
     */
    method Run(ops: seq<Op>, ghost e: Eager) returns (outs: seq<Out>, ghost snaps: seq<Snap>, ghost es: seq<Eager>)
      requires Valid()
      modifies this, vm
      ensures Valid() && vm.frames.Keys == old(vm.frames.Keys)
      ensures IsRun(ops, outs, snaps, es) && snaps[0] == old(Now()) && snaps[|outs|] == Now() && es[0] == e
      ensures |outs| < |ops| ==> outs != [] && outs[|outs| - 1] == Panic
      ensures |vm.freelist| + |vm.tables.Keys| + |MappedFrames(vm.leaf)| + |sz.Keys| == |vm.frames.Keys|
    {
      hide Ok, SnapOf, MappedFrames, StepOk, CowNext, CowOut, EagerNext, EagerOut;
      ghost var frames := vm.frames.Keys;
      outs, snaps, es := [], [Now()], [e];
      while |outs| < |ops| && (outs == [] || outs[|outs| - 1] != Panic)
        invariant Valid() && vm.frames.Keys == frames && |outs| <= |ops|
        invariant IsRun(ops, outs, snaps, es) && snaps[0] == old(Now()) && snaps[|outs|] == Now() && es[0] == e
        decreases |ops| - |outs|
      {
        var n := |outs|;
        var r := Do(ops[n]);
        RunMore(ops, outs, snaps, es, r, Now());
        outs, snaps, es := outs + [r], snaps + [Now()], es + [EagerNext(es[n], ops[n])];
      }
      Conserved(vm.State(), sz, trapframe);
    }
  }

  // Loads, stores and copyout.

  lemma LoadDoes(m: Mem, sz: map<Pid, nat>, trapframe: map<Pid, Frame>, p: Pid, va: nat)
    requires Ok(m, sz, trapframe) && Good(m) && LeafOk(m)
    ensures Does(SnapOf(m, sz), SnapOf(m, sz), Load(p, va),
                 if CanLoad(Marks(m.leaf), p, va) && Key(p, va / PGSIZE) in View(m) then Byte(ByteAt(View(m), p, va)) else Fail)
    ensures Does(SnapOf(m, sz), SnapOf(m, sz), Fetch(p, va),
                 if CanFetch(Marks(m.leaf), p, va) && Key(p, va / PGSIZE) in View(m) then Byte(ByteAt(View(m), p, va)) else Fail)
    ensures Readable(Marks(m.leaf), p, va) ==> Key(p, va / PGSIZE) in View(m)
  {
    hide Ok, Good, View, Marks, Alone, ByteAt;
    ViewKeys(m);
    MarksKeys(m.leaf);
  }

  lemma StoreDoes(m: Mem, m': Mem, sz: map<Pid, nat>, trapframe: map<Pid, Frame>, p: Pid, va: nat, b: int)
    requires Ok(m, sz, trapframe) && LeafOk(m) && CanStore(Marks(m.leaf), |m.freelist|, p, va) && PageCopied(m, m', p, va, [b])
    ensures Ok(m', sz, trapframe) && LeafOk(m') && m'.frames.Keys == m.frames.Keys
    ensures Does(SnapOf(m, sz), SnapOf(m', sz), Store(p, va, b), Done)
  {
    hide Ok, Good, View, Marks, Alone, CanStore, Write, Takes, SameBut, LeafOk, Loose;
    GoodLeaf(m');
    StoreMarks(m, m', p, va);
    MarksKeys(m.leaf);
    MarksKeys(m'.leaf);
    OkSame(m, m', sz, trapframe);
  }

  lemma StoreFree(m: Mem, m': Mem, p: Pid, va: nat, b: int, ok: bool)
    requires if ok then PageCopied(m, m', p, va, [b]) else m' == m
    ensures |m'.freelist| + 1 >= |m.freelist|
  {
    hide Good, View, Marks, Alone, Write, SameBut, Kept;
  }

  lemma StoreMarks(m: Mem, m': Mem, p: Pid, va: nat)
    requires var k := Key(p, va / PGSIZE);
             && Marks(m'.leaf) == (if IsCow(m.leaf, k) then Marks(m.leaf)[k := ALL] else Marks(m.leaf))
    ensures Marks(m'.leaf) == WrittenMarks(Marks(m.leaf), p, va, 1) && Marks(m'.leaf).Keys == Marks(m.leaf).Keys
  {
    hide Marks, WrittenMarks;
    MarksAt(m.leaf, Key(p, va / PGSIZE));
    WrittenMarksNothing(Marks(m.leaf), p, va);
    WrittenMarksMore(Marks(m.leaf), p, va, 0, 1);
  }

  lemma CopyDoes(m: Mem, m': Mem, sz: map<Pid, nat>, trapframe: map<Pid, Frame>, p: Pid, va: nat, bytes: seq<int>, done: nat)
    requires Ok(m, sz, trapframe) && LeafOk(m) && Good(m') && LeafOk(m') && Kept(m, m') && m'.tables == m.tables
    requires done == Reach(Marks(m.leaf), Alone(m.leaf), |m.freelist|, p, va, |bytes|)
    requires View(m') == Write(View(m), p, va, bytes[..done]) && Marks(m'.leaf) == WrittenMarks(Marks(m.leaf), p, va, done)
    ensures Ok(m', sz, trapframe) && m'.frames.Keys == m.frames.Keys
    ensures Does(SnapOf(m, sz), SnapOf(m', sz), CopyOut(p, va, bytes), Count(done))
  {
    hide Ok, Good, View, Marks, Alone, Write, Reach, LeafOk, Loose;
    MarksKeys(m.leaf);
    MarksKeys(m'.leaf);
    OkSame(m, m', sz, trapframe);
  }

  lemma ClearDoes(m: Mem, m': Mem, sz: map<Pid, nat>, trapframe: map<Pid, Frame>, p: Pid, page: nat)
    requires Ok(m, sz, trapframe) && LeafOk(m) && Good(m') && Key(p, page) in m.leaf && Kept(m, m') && m'.tables == m.tables
    requires LeafOk(m') && View(m') == View(m)
    requires Key(p, page) in Marks(m.leaf) &&
             Marks(m'.leaf) == Marks(m.leaf)[Key(p, page) := Marks(m.leaf)[Key(p, page)].(u := false)]
    ensures Ok(m', sz, trapframe) && m'.frames.Keys == m.frames.Keys
    ensures Does(SnapOf(m, sz), SnapOf(m', sz), Clear(p, page), Done)
  {
    hide Ok, Good, View, Marks, Alone, LeafOk, Loose;
    MarksKeys(m.leaf);
    MarksKeys(m'.leaf);
    OkSame(m, m', sz, trapframe);
  }

  // growproc.

  lemma NotRunning(m: Mem, sz: map<Pid, nat>, trapframe: map<Pid, Frame>, op: Op)
    requires Ok(m, sz, trapframe) && LeafOk(m) && (op.Grow? || op.Extend?)
    requires op.p !in sz || (Pages(sz[op.p]) > 0 && Key(op.p, 0) !in m.leaf) || (op.Extend? && sz[op.p] + op.more == 0)
    ensures Does(SnapOf(m, sz), SnapOf(m, sz), op, Fail) && Costs(SnapOf(m, sz), SnapOf(m, sz), op)
  {
    hide Ok, View, Marks, Alone, Pages, Need;
    MarksAt(m.leaf, Key(op.p, 0));
  }

  lemma GrowReady(m: Mem, sz: map<Pid, nat>, trapframe: map<Pid, Frame>, p: Pid, newsz: nat)
    requires Ok(m, sz, trapframe) && p in sz && newsz >= sz[p] && !(Pages(sz[p]) > 0 && Key(p, 0) !in m.leaf)
    ensures Root(p) in m.tables && Range(p, Pages(sz[p]), Pages(newsz) - Pages(sz[p])) !! m.leaf.Keys
    ensures |m.frames.Keys| <= NFRAMES && Range(p, 0, Pages(sz[p])) <= m.leaf.Keys && Pages(sz[p]) <= Pages(newsz)
  {
    hide Good, Injective, Loose, Pages;
    PagesGrow(sz[p], newsz);
    OkRuns(m, sz, trapframe, p);
  }

  lemma GrowFails(m: Mem, m': Mem, sz: map<Pid, nat>, trapframe: map<Pid, Frame>, p: Pid, newsz: nat)
    requires Ok(m, sz, trapframe) && p in sz && LeafOk(m)
    requires Unseen(m, m', Paths(p, Pages(sz[p]), Pages(newsz) - Pages(sz[p])))
    ensures Ok(m', sz, trapframe) && LeafOk(m') && m'.frames.Keys == m.frames.Keys && SameSeen(SnapOf(m', sz), SnapOf(m, sz))
  {
    hide Good, View, Marks, Alone, Pages, Paths, Range, Grew, Loose, Injective, Rooted;
    var more := Paths(p, Pages(sz[p]), Pages(newsz) - Pages(sz[p]));
    UnseenFacts(m, m', more);
    PathsOwner(p, Pages(sz[p]), Pages(newsz) - Pages(sz[p]));
    OkGrew(m, m', sz, trapframe, more);
  }

  lemma ResizeSized(keys: set<Key>, sz: map<Pid, nat>, p: Pid, newsz: nat)
    requires Sized(keys, sz) && p in sz && Range(p, 0, Pages(sz[p])) <= keys
    ensures Sized(keys + Range(p, Pages(sz[p]), Pages(newsz) - Pages(sz[p])) - Range(p, Pages(newsz), Pages(sz[p]) - Pages(newsz)),
                  sz[p := newsz])
  {
    hide Pages;
    var from: int, to: int := Pages(sz[p]), Pages(newsz);
    var keys', sz' := keys + Range(p, from, to - from) - Range(p, to, from - to), sz[p := newsz];
    forall q | q in sz'
      ensures Range(q, 0, Pages(sz'[q])) <= keys' || NoPages(keys', q)
    {
      if q != p {
        assert Range(q, 0, Pages(sz[q])) <= keys || NoPages(keys, q);
      } else {
        forall k | k in Range(p, 0, to)
          ensures k in keys'
        {
          assert k in Range(p, 0, from) || k in Range(p, from, to - from);
        }
      }
    }
  }

  lemma SizeRooted(tables: set<Table>, sz: map<Pid, nat>, p: Pid, size: nat)
    requires Rooted(tables, sz) && p in sz
    ensures Rooted(tables, sz[p := size]) && sz[p := size].Keys == sz.Keys
  {
  }

  lemma OkResized(m: Mem, m': Mem, sz: map<Pid, nat>, trapframe: map<Pid, Frame>, p: Pid, newsz: nat, more: set<Table>)
    requires Ok(m, sz, trapframe) && p in sz && Good(m') && Kept(m, m') && Grew(m.tables, m'.tables, more)
    requires (forall t :: t in more ==> t.pid == p) && Sized(m'.leaf.Keys, sz[p := newsz])
    ensures Ok(m', sz[p := newsz], trapframe)
  {
    hide Good, Rooted, Sized, Injective, Loose, Grew;
    GrewKeys(m.tables, m'.tables, more);
    GrewRooted(m.tables.Keys, m'.tables.Keys, sz, more);
    SizeRooted(m'.tables.Keys, sz, p, newsz);
  }

  lemma GrowDoes(m: Mem, m': Mem, sz: map<Pid, nat>, trapframe: map<Pid, Frame>, p: Pid, newsz: nat, w: bool, x: bool)
    requires Ok(m, sz, trapframe) && p in sz && LeafOk(m) && Pages(sz[p]) <= Pages(newsz)
    requires Range(p, 0, Pages(sz[p])) <= m.leaf.Keys
    requires RangeAdded(m, m', p, Pages(sz[p]), Pages(newsz) - Pages(sz[p]), w, x)
    ensures Ok(m', sz[p := newsz], trapframe) && LeafOk(m') && m'.frames.Keys == m.frames.Keys
    ensures SameSeen(SnapOf(m', sz[p := newsz]), SnapResized(SnapOf(m, sz), p, newsz, w, x))
    ensures |m'.freelist| + Need(m.tables.Keys, p, Pages(sz[p]), Pages(newsz) - Pages(sz[p])) == |m.freelist|
  {
    hide Good, View, Marks, Alone, Pages, Paths, Range, Grew, Loose, Injective, Rooted, Sized, RangeAdded, Grown, LeafOk, ResizedTo;
    AddedSeen(m, m', p, Pages(sz[p]), Pages(newsz) - Pages(sz[p]), w, x);
    PathsOwner(p, Pages(sz[p]), Pages(newsz) - Pages(sz[p]));
    GrowSized(m.leaf.Keys, sz, p, newsz);
    OkResized(m, m', sz, trapframe, p, newsz, Paths(p, Pages(sz[p]), Pages(newsz) - Pages(sz[p])));
    ResizedUp(View(m), p, sz[p], newsz, Filled(0));
    ResizedUp(Marks(m.leaf), p, sz[p], newsz, NewMark(w, x));
    AddedCounts(m, m', p, Pages(sz[p]), Pages(newsz) - Pages(sz[p]), w, x);
    NeedUsed(m.tables.Keys, m'.tables.Keys, p, Pages(sz[p]), Pages(newsz) - Pages(sz[p]));
  }

  lemma NeedUsed(tables: set<Table>, now: set<Table>, p: Pid, first: nat, n: nat)
    requires now == tables + Paths(p, first, n)
    ensures |now| + n == |tables| + Need(tables, p, first, n)
  {
    hide Paths;
    MissingAll(tables, now, Paths(p, first, n));
  }

  lemma GrowSized(keys: set<Key>, sz: map<Pid, nat>, p: Pid, newsz: nat)
    requires Sized(keys, sz) && p in sz && Range(p, 0, Pages(sz[p])) <= keys && Pages(sz[p]) <= Pages(newsz)
    ensures Sized(keys + Range(p, Pages(sz[p]), Pages(newsz) - Pages(sz[p])), sz[p := newsz])
  {
    hide Pages, Range, Sized;
    ResizeSized(keys, sz, p, newsz);
    NoPaths(p, Pages(newsz), Pages(sz[p]) - Pages(newsz));
    var keys' := keys + Range(p, Pages(sz[p]), Pages(newsz) - Pages(sz[p]));
    assert keys' - {} == keys';
  }

  lemma ShrinkSized(keys: set<Key>, sz: map<Pid, nat>, p: Pid, newsz: nat)
    requires Sized(keys, sz) && p in sz && Range(p, 0, Pages(sz[p])) <= keys && Pages(newsz) <= Pages(sz[p])
    ensures Sized(keys - Range(p, Pages(newsz), Pages(sz[p]) - Pages(newsz)), sz[p := newsz])
  {
    hide Pages, Range, Sized;
    ResizeSized(keys, sz, p, newsz);
    NoPaths(p, Pages(sz[p]), Pages(newsz) - Pages(sz[p]));
    assert keys + {} == keys;
  }

  lemma ResizedUp<V>(v: map<Key, V>, p: Pid, oldsz: nat, newsz: nat, blank: V)
    requires Pages(oldsz) <= Pages(newsz)
    ensures ResizedTo(v, p, oldsz, newsz, blank) == Grown(v, p, Pages(oldsz), Pages(newsz) - Pages(oldsz), blank)
  {
    hide Pages, Range, Grown;
    NoPaths(p, Pages(newsz), Pages(oldsz) - Pages(newsz));
    DropNone(Grown(v, p, Pages(oldsz), Pages(newsz) - Pages(oldsz), blank));
  }

  lemma ResizedDown<V>(v: map<Key, V>, p: Pid, oldsz: nat, newsz: nat, blank: V)
    requires Pages(newsz) <= Pages(oldsz)
    ensures ResizedTo(v, p, oldsz, newsz, blank) == v - Range(p, Pages(newsz), Pages(oldsz) - Pages(newsz))
  {
    hide Pages, Range, Grown;
    GrownNothing(v, p, Pages(oldsz), Pages(newsz) - Pages(oldsz), blank);
  }

  lemma AddedSeen(m: Mem, m': Mem, p: Pid, first: nat, n: nat, w: bool, x: bool)
    requires RangeAdded(m, m', p, first, n, w, x)
    ensures Good(m) && Good(m') && Kept(m, m') && LeafOk(m) && LeafOk(m') && View(m') == Grown(View(m), p, first, n, Filled(0))
    ensures Marks(m'.leaf) == Grown(Marks(m.leaf), p, first, n, NewMark(w, x)) && m'.leaf.Keys == m.leaf.Keys + Range(p, first, n)
    ensures Grew(m.tables, m'.tables, Paths(p, first, n))
  {
    hide Good, View, Marks, Grown, Range, Paths, Kept, Grew, Filled;
    GoodLeaf(m);
    GoodLeaf(m');
  }

  lemma GrownDoes(m: Mem, sz: map<Pid, nat>, trapframe: map<Pid, Frame>, t: Snap, p: Pid, n: int, ok: bool)
    requires Ok(m, sz, trapframe) && LeafOk(m) && p in sz && n > 0 && !(Pages(sz[p]) > 0 && Key(p, 0) !in m.leaf)
    requires ok <==> NeedTo(SnapOf(m, sz), p, sz[p] + n) <= |m.freelist|
    requires SameSeen(t, if ok then SnapResized(SnapOf(m, sz), p, sz[p] + n, true, false) else SnapOf(m, sz))
    requires ok ==> t.free + NeedTo(SnapOf(m, sz), p, sz[p] + n) == |m.freelist|
    ensures Does(SnapOf(m, sz), t, Grow(p, n), if ok then Done else Fail) && Costs(SnapOf(m, sz), t, Grow(p, n))
  {
    hide Ok, View, Marks, Alone, Pages, Need, ResizedTo;
    MarksAt(m.leaf, Key(p, 0));
  }

  lemma ExtendDoes(m: Mem, sz: map<Pid, nat>, trapframe: map<Pid, Frame>, t: Snap, p: Pid, n: nat, w: bool, x: bool, ok: bool)
    requires Ok(m, sz, trapframe) && LeafOk(m) && p in sz && sz[p] + n > 0 && !(Pages(sz[p]) > 0 && Key(p, 0) !in m.leaf)
    requires ok <==> NeedTo(SnapOf(m, sz), p, sz[p] + n) <= |m.freelist|
    requires SameSeen(t, if ok then SnapResized(SnapOf(m, sz), p, sz[p] + n, w, x) else SnapOf(m, sz))
    requires ok ==> t.free + NeedTo(SnapOf(m, sz), p, sz[p] + n) == |m.freelist|
    ensures Does(SnapOf(m, sz), t, Extend(p, n, w, x), if ok then Done else Fail) && Costs(SnapOf(m, sz), t, Extend(p, n, w, x))
  {
    hide Ok, View, Marks, Alone, Pages, Need, ResizedTo;
    MarksAt(m.leaf, Key(p, 0));
  }

  lemma ShrinkReady(m: Mem, sz: map<Pid, nat>, trapframe: map<Pid, Frame>, p: Pid, newsz: nat)
    requires Ok(m, sz, trapframe) && p in sz && newsz <= sz[p] && !(Pages(sz[p]) > 0 && Key(p, 0) !in m.leaf)
    ensures Range(p, Pages(newsz), Pages(sz[p]) - Pages(newsz)) <= m.leaf.Keys && Range(p, 0, Pages(sz[p])) <= m.leaf.Keys
    ensures Pages(newsz) <= Pages(sz[p])
  {
    hide Good, Injective, Loose, Pages;
    PagesGrow(newsz, sz[p]);
    OkRuns(m, sz, trapframe, p);
    assert Range(p, Pages(newsz), Pages(sz[p]) - Pages(newsz)) <= Range(p, 0, Pages(sz[p]));
  }

  lemma ShrinkDoes(m: Mem, m': Mem, sz: map<Pid, nat>, trapframe: map<Pid, Frame>, p: Pid, n: int)
    requires Ok(m, sz, trapframe) && LeafOk(m) && p in sz && n < 0 && sz[p] + n >= 0
    requires !(Pages(sz[p]) > 0 && Key(p, 0) !in m.leaf)
    requires Dropped(m, m', Range(p, Pages(sz[p] + n), Pages(sz[p]) - Pages(sz[p] + n)))
    ensures Ok(m', sz[p := sz[p] + n], trapframe) && LeafOk(m') && m'.frames.Keys == m.frames.Keys
    ensures Does(SnapOf(m, sz), SnapOf(m', sz[p := sz[p] + n]), Grow(p, n), Done)
    ensures Costs(SnapOf(m, sz), SnapOf(m', sz[p := sz[p] + n]), Grow(p, n))
  {
    hide Good, View, Marks, Alone, Pages, Range, Ok, ResizedTo, LeafOk, NeedTo, Filled, Dropped;
    MarksAt(m.leaf, Key(p, 0));
    ShrinkOk(m, m', sz, trapframe, p, sz[p] + n);
    ShrinkSees(m, m', p, sz[p], sz[p] + n);
  }

  lemma ShrinkOk(m: Mem, m': Mem, sz: map<Pid, nat>, trapframe: map<Pid, Frame>, p: Pid, newsz: nat)
    requires Ok(m, sz, trapframe) && p in sz && newsz <= sz[p] && !(Pages(sz[p]) > 0 && Key(p, 0) !in m.leaf)
    requires Dropped(m, m', Range(p, Pages(newsz), Pages(sz[p]) - Pages(newsz)))
    ensures Ok(m', sz[p := newsz], trapframe) && LeafOk(m') && m'.frames.Keys == m.frames.Keys && Pages(newsz) <= Pages(sz[p])
  {
    hide Good, View, Marks, Pages, Range, Ok, Sized, LeafOk, Grew, Dropped, Loose;
    ShrinkReady(m, sz, trapframe, p, newsz);
    DroppedSeen(m, m', Range(p, Pages(newsz), Pages(sz[p]) - Pages(newsz)));
    OkSized(m, sz, trapframe);
    ShrinkSized(m.leaf.Keys, sz, p, newsz);
    GrewSelf(m.tables, {});
    OkResized(m, m', sz, trapframe, p, newsz, {});
  }

  lemma OkSized(m: Mem, sz: map<Pid, nat>, trapframe: map<Pid, Frame>)
    requires Ok(m, sz, trapframe)
    ensures Sized(m.leaf.Keys, sz)
  {
  }

  lemma ShrinkSees(m: Mem, m': Mem, p: Pid, oldsz: nat, newsz: nat)
    requires LeafOk(m) && LeafOk(m') && Pages(newsz) <= Pages(oldsz)
    requires Dropped(m, m', Range(p, Pages(newsz), Pages(oldsz) - Pages(newsz)))
    ensures View(m') == ResizedTo(View(m), p, oldsz, newsz, Filled(0))
    ensures Marks(m'.leaf) == ResizedTo(Marks(m.leaf), p, oldsz, newsz, NewMark(true, false))
  {
    hide Good, View, Marks, Pages, Range, LeafOk, Filled, Dropped, ResizedTo;
    DroppedSeen(m, m', Range(p, Pages(newsz), Pages(oldsz) - Pages(newsz)));
    ResizedDown(View(m), p, oldsz, newsz, Filled(0));
    ResizedDown(Marks(m.leaf), p, oldsz, newsz, NewMark(true, false));
  }

  lemma DroppedSeen(m: Mem, m': Mem, r: set<Key>)
    requires Dropped(m, m', r)
    ensures Good(m) && Good(m') && Kept(m, m') && LeafOk(m) && LeafOk(m') && m'.tables == m.tables
    ensures m'.leaf.Keys == m.leaf.Keys - r && View(m') == View(m) - r && Marks(m'.leaf) == Marks(m.leaf) - r
  {
    hide Good, View, Marks, Kept;
    GoodLeaf(m);
    GoodLeaf(m');
    MarksDrop(m.leaf, r);
  }

  lemma SameDoes(m: Mem, sz: map<Pid, nat>, trapframe: map<Pid, Frame>, p: Pid, n: int)
    requires Ok(m, sz, trapframe) && LeafOk(m) && p in sz && n <= 0 && (n == 0 || sz[p] + n < 0)
    requires !(Pages(sz[p]) > 0 && Key(p, 0) !in m.leaf)
    ensures Does(SnapOf(m, sz), SnapOf(m, sz), Grow(p, n), Done) && Costs(SnapOf(m, sz), SnapOf(m, sz), Grow(p, n))
  {
    hide Ok, View, Marks, Alone, Pages, Range, Grown, NeedTo, Filled, ResizedTo;
    MarksAt(m.leaf, Key(p, 0));
    ResizedSame(View(m), p, sz[p], Filled(0));
    ResizedSame(Marks(m.leaf), p, sz[p], NewMark(true, false));
    assert sz[p := sz[p]] == sz;
  }

  lemma ResizedSame<V>(v: map<Key, V>, p: Pid, sz: nat, blank: V)
    ensures ResizedTo(v, p, sz, sz, blank) == v
  {
    hide Pages, Range, Grown;
    ResizedDown(v, p, sz, sz, blank);
    NoPaths(p, Pages(sz), 0);
    DropNone(v);
  }

  // exit.

  lemma NotExiting(m: Mem, sz: map<Pid, nat>, trapframe: map<Pid, Frame>, p: Pid)
    requires Ok(m, sz, trapframe) && LeafOk(m) && (p !in sz || (Pages(sz[p]) > 0 && Key(p, 0) !in m.leaf))
    ensures Does(SnapOf(m, sz), SnapOf(m, sz), Exit(p), if p in sz then Panic else Fail)
  {
    hide Ok, View, Marks, Alone, Pages;
    MarksAt(m.leaf, Key(p, 0));
  }

  /** The trapframe f, the first n pages and the page table of p have gone. */
  ghost predicate ProcFreed(m: Mem, m1: Mem, m2: Mem, m3: Mem, p: Pid, n: nat, f: Frame) {
    Released(m, m1, f) && Dropped(m1, m2, Range(p, 0, n)) && TablesDropped(m2, m3, TablesOf(m2.tables.Keys, p))
  }

  /** The trapframe f has gone back to the free list. */
  ghost predicate Released(m: Mem, m1: Mem, f: Frame) {
    && Good(m) && Good(m1) && View(m1) == View(m) && m1.leaf == m.leaf && m1.tables == m.tables
    && m1.frames.Keys == m.frames.Keys && Loose(m1) == Loose(m) - {f}
  }

  lemma OkTrapframe(m: Mem, sz: map<Pid, nat>, trapframe: map<Pid, Frame>, p: Pid)
    requires Ok(m, sz, trapframe) && p in sz
    ensures p in trapframe
  {
    hide Good, Rooted, Sized, Injective;
  }

  lemma ExitFrees(m: Mem, sz: map<Pid, nat>, trapframe: map<Pid, Frame>, p: Pid)
    requires Ok(m, sz, trapframe) && p in sz && !(Pages(sz[p]) > 0 && Key(p, 0) !in m.leaf)
    ensures p in trapframe && trapframe[p] in m.count && Released(m, Freed(m, trapframe[p]), trapframe[p])
    ensures Good(Freed(m, trapframe[p])) && Range(p, 0, Pages(sz[p])) <= Freed(m, trapframe[p]).leaf.Keys
  {
    hide Good, View, Rooted, Sized, Injective, Pages, Range, Freed;
    OkRuns(m, sz, trapframe, p);
    assert trapframe[p] in trapframe.Values;
    FreeOwnedGood(m, trapframe[p]);
  }

  lemma ExitEmpty(m: Mem, p: Pid)
    requires Good(m)
    ensures Dropped(m, m, Range(p, 0, Pages(0)))
  {
    hide Good, Dropped;
    DropNothing(m, p, 0);
  }

  lemma ExitLeafless(m: Mem, m1: Mem, m2: Mem, sz: map<Pid, nat>, trapframe: map<Pid, Frame>, p: Pid)
    requires Ok(m, sz, trapframe) && p in sz && Released(m, m1, trapframe[p]) && Dropped(m1, m2, Range(p, 0, Pages(sz[p])))
    ensures Good(m2) && Root(p) in m2.tables && Leafless(m2.leaf, p)
  {
    hide Good, View, Injective, Loose, Pages, Kept;
    OkRuns(m, sz, trapframe, p);
    forall k | k in m.leaf && k.pid == p
      ensures k in Range(p, 0, Pages(sz[p]))
    {
      assert k in m.leaf.Keys;
    }
  }

  lemma ExitSized(keys: set<Key>, sz: map<Pid, nat>, p: Pid)
    requires Sized(keys, sz) && p in sz
    ensures Sized(keys - Range(p, 0, Pages(sz[p])), sz - {p})
  {
    hide Pages;
    var keys', sz' := keys - Range(p, 0, Pages(sz[p])), sz - {p};
    forall k | k in keys && k.pid == p
      ensures k in Range(p, 0, Pages(sz[p]))
    {
    }
    forall q | q in sz'
      ensures Range(q, 0, Pages(sz'[q])) <= keys' || NoPages(keys', q)
    {
      assert Range(q, 0, Pages(sz[q])) <= keys || NoPages(keys, q);
    }
  }

  lemma ExitRooted(tables: set<Table>, sz: map<Pid, nat>, p: Pid)
    requires Rooted(tables, sz)
    ensures Rooted(tables - TablesOf(tables, p), sz - {p})
  {
  }

  lemma ExitDoes(m: Mem, m1: Mem, m2: Mem, m3: Mem, sz: map<Pid, nat>, trapframe: map<Pid, Frame>, p: Pid)
    requires Ok(m, sz, trapframe) && LeafOk(m) && p in sz && !(Pages(sz[p]) > 0 && Key(p, 0) !in m.leaf)
    requires Released(m, m1, trapframe[p]) && Dropped(m1, m2, Range(p, 0, Pages(sz[p])))
    requires TablesDropped(m2, m3, TablesOf(m2.tables.Keys, p))
    ensures Ok(m3, sz - {p}, trapframe - {p}) && LeafOk(m3) && m3.frames.Keys == m.frames.Keys
    ensures Does(SnapOf(m, sz), SnapOf(m3, sz - {p}), Exit(p), Done)
  {
    hide Good, View, Marks, Alone, Pages, Range, Ok, LeafOk, TablesOf, Dropped, TablesDropped, Released, Loose;
    MarksAt(m.leaf, Key(p, 0));
    OkTrapframe(m, sz, trapframe, p);
    ExitSees(m, m1, m2, m3, p, Pages(sz[p]), trapframe[p]);
    ExitOk(m, m3, sz, trapframe, p);
  }

  lemma ExitSees(m: Mem, m1: Mem, m2: Mem, m3: Mem, p: Pid, n: nat, f: Frame)
    requires ProcFreed(m, m1, m2, m3, p, n, f)
    ensures Good(m3) && LeafOk(m) && LeafOk(m3) && m3.frames.Keys == m.frames.Keys && Loose(m3) == Loose(m) - {f}
    ensures View(m3) == View(m) - Range(p, 0, n) && Marks(m3.leaf) == Marks(m.leaf) - Range(p, 0, n)
    ensures m3.leaf.Keys == m.leaf.Keys - Range(p, 0, n) && m3.tables == m.tables - TablesOf(m.tables.Keys, p)
  {
    hide Good, View, Marks, Range, LeafOk, TablesOf, Dropped, Loose;
    DroppedSeen(m1, m2, Range(p, 0, n));
    GoodLeaf(m);
    GoodLeaf(m3);
  }

  lemma ExitOk(m: Mem, m': Mem, sz: map<Pid, nat>, trapframe: map<Pid, Frame>, p: Pid)
    requires Ok(m, sz, trapframe) && p in sz && Good(m') && m'.frames.Keys == m.frames.Keys
    requires m'.leaf.Keys == m.leaf.Keys - Range(p, 0, Pages(sz[p])) && m'.tables == m.tables - TablesOf(m.tables.Keys, p)
    requires Loose(m') == Loose(m) - {trapframe[p]}
    ensures Ok(m', sz - {p}, trapframe - {p})
  {
    hide Good, Pages, Range, Loose, Injective, Rooted, Sized, TablesOf;
    ExitSized(m.leaf.Keys, sz, p);
    ExitRooted(m.tables.Keys, sz, p);
    assert m'.tables.Keys == m.tables.Keys - TablesOf(m.tables.Keys, p);
    ExitTrapframes(sz, trapframe, p);
  }

  lemma ExitTrapframes(sz: map<Pid, nat>, tf: map<Pid, Frame>, p: Pid)
    requires Injective(tf) && tf.Keys == sz.Keys && p in sz
    ensures Injective(tf - {p}) && (tf - {p}).Keys == (sz - {p}).Keys && (tf - {p}).Values == tf.Values - {tf[p]}
  {
    hide Injective;
    ValuesWithout(tf, p);
    RestInjective(tf, p);
  }

  lemma RestInjective(tf: map<Pid, Frame>, p: Pid)
    requires Injective(tf)
    ensures Injective(tf - {p})
  {
  }

  // fork.

  lemma ForkReady(m: Mem, m1: Mem, sz: map<Pid, nat>, trapframe: map<Pid, Frame>, p: Pid, c: Pid, f: Frame)
    requires Ok(m, sz, trapframe) && p in sz && c !in sz && ProcMade(m, m1, c, Some(f))
    requires !(Pages(sz[p]) > 0 && Key(p, 0) !in m.leaf)
    ensures p != c && Root(c) in m1.tables && Range(p, 0, Pages(sz[p])) <= m1.leaf.Keys
    ensures Range(c, 0, Pages(sz[p])) !! m1.leaf.Keys
    ensures |m1.frames.Keys| <= NFRAMES
  {
    hide Good, View, Rooted, Sized, Injective, Loose, Pages;
    OkAbsent(m, sz, trapframe, c);
    OkRuns(m, sz, trapframe, p);
    assert Root(c) in Top(c);
  }

  lemma ForkFails(m: Mem, m': Mem, sz: map<Pid, nat>, trapframe: map<Pid, Frame>, p: Pid, c: Pid)
    requires Ok(m, sz, trapframe) && Ok(m', sz, trapframe) && m'.leaf == m.leaf && LeafOk(m) && LeafOk(m') && View(m') == View(m)
    requires p !in sz || c in sz || (Pages(sz[p]) > 0 && Key(p, 0) !in m.leaf) || |m.freelist| < EMPTY
    ensures Does(SnapOf(m, sz), SnapOf(m', sz), Fork(p, c), Fail) && !Hollows(SnapOf(m, sz), Fork(p, c))
    ensures Costs(SnapOf(m, sz), SnapOf(m', sz), Fork(p, c))
  {
    hide Ok, View, Marks, Alone, Pages;
    MarksAt(m.leaf, Key(p, 0));
    FailDoes(m, m', sz, trapframe, Fork(p, c));
  }

  lemma ForkSmall(m: Mem, sz: map<Pid, nat>, trapframe: map<Pid, Frame>, p: Pid)
    requires Ok(m, sz, trapframe) && p in sz && Range(p, 0, Pages(sz[p])) <= m.leaf.Keys
    ensures Pages(sz[p]) <= NFRAMES
  {
    hide Good, Rooted, Sized, Injective, Loose, Pages, Range;
    PagesFit(m, p, Pages(sz[p]));
  }

  predicate InPaths(t: Table, c: Pid, n: nat) {
    t.pid == c && match t
                  case Root(_) => false
                  case Mid(_, i) => i * 0x4_0000 < n
                  case Low(_, i) => i * 0x200 < n
  }

  lemma {:induction false} PathsAre(c: Pid, n: nat, t: Table)
    ensures t in Paths(c, 0, n) <==> InPaths(t, c, n)
  {
    if n == 0 {
      NoPaths(c, 0, 0);
    } else {
      PathsAre(c, n - 1, t);
      PathsStep(c, 0, n - 1);
      PathIs(Key(c, n - 1), t, n - 1);
    }
  }

  lemma PathIs(k: Key, t: Table, n: nat)
    requires k.page == n
    ensures t in Path(k) || InPaths(t, k.pid, n) <==> InPaths(t, k.pid, n + 1)
  {
  }

  lemma {:induction false} PathsCount(c: Pid, n: nat)
    ensures |Paths(c, 0, n)| == TablesFor(n)
  {
    hide Paths;
    if n == 0 {
      NoPaths(c, 0, 0);
    } else {
      hide TablesFor, InPaths, Path;
      PathsCount(c, n - 1);
      PathsStep(c, 0, n - 1);
      var k := Key(c, n - 1);
      PathsAre(c, n - 1, MidOf(k));
      PathsAre(c, n - 1, LowOf(k));
      PathAdds(Paths(c, 0, n - 1), k, n - 1);
    }
  }

  lemma PathAdds(paths: set<Table>, k: Key, n: nat)
    requires k.page == n && (MidOf(k) in paths <==> InPaths(MidOf(k), k.pid, n)) && (LowOf(k) in paths <==> InPaths(LowOf(k), k.pid, n))
    ensures |paths + Path(k)| == |paths| + TablesFor(n + 1) - TablesFor(n)
  {
    RoundsUp(n, 0x200);
    RoundsUp(n, 0x4_0000);
    var mid, low := MidOf(k), LowOf(k);
    assert mid != low;
    var a := paths + {mid};
    assert paths + Path(k) == a + {low};
    assert |a| == |paths| + (if mid in paths then 0 else 1) by {
      assert mid in paths ==> a == paths;
    }
    assert |a + {low}| == |a| + (if low in paths then 0 else 1) by {
      assert low in paths ==> a + {low} == a;
    }
  }

  lemma RoundsUp(n: nat, b: nat)
    requires b == 0x200 || b == 0x4_0000
    ensures (n + 1 + (b - 1)) / b - (n + (b - 1)) / b == (if n / b * b < n then 0 else 1)
  {
    var q, r := n / b, n % b;
    assert n == q * b + r;
    if b == 0x200 {
      assert (n + 1 + 0x1FF) / 0x200 == q + 1;
      assert (n + 0x1FF) / 0x200 == if r == 0 then q else q + 1;
    } else {
      assert (n + 1 + 0x3_FFFF) / 0x4_0000 == q + 1;
      assert (n + 0x3_FFFF) / 0x4_0000 == if r == 0 then q else q + 1;
    }
  }

  /** The child's pages need page-table pages other than those that every process has. */
  lemma ForkTables(m: Mem, m1: Mem, c: Pid, n: nat, f: Frame)
    requires ProcMade(m, m1, c, Some(f)) && TablesOf(m.tables.Keys, c) == {} && n <= NFRAMES
    ensures |Paths(c, 0, n) - m1.tables.Keys| == TablesFor(n) && |m1.freelist| + EMPTY == |m.freelist|
  {
    hide Good, View, Loose, Paths, TablesFor;
    PathsApart(m.tables.Keys, c, n);
    PathsCount(c, n);
  }

  lemma PathsApart(tables: set<Table>, c: Pid, n: nat)
    requires TablesOf(tables, c) == {} && n <= NFRAMES
    ensures Paths(c, 0, n) - (tables + Top(c)) == Paths(c, 0, n)
  {
    hide Paths;
    forall t | t in Paths(c, 0, n)
      ensures t !in tables + Top(c)
    {
      PathsAre(c, n, t);
      assert t !in TablesOf(tables, c);
    }
  }

  lemma FillSized(keys: set<Key>, sz: map<Pid, nat>, c: Pid, size: nat)
    requires Sized(keys, sz) && c !in sz
    ensures Sized(keys + Range(c, 0, Pages(size)), sz[c := size])
  {
    hide Pages;
    var keys', sz' := keys + Range(c, 0, Pages(size)), sz[c := size];
    forall p | p in sz'
      ensures Range(p, 0, Pages(sz'[p])) <= keys' || NoPages(keys', p)
    {
      if p != c {
        assert Range(p, 0, Pages(sz[p])) <= keys || NoPages(keys, p);
      }
    }
  }

  lemma GrewRooted(tables: set<Table>, tables': set<Table>, sz: map<Pid, nat>, more: set<Table>)
    requires Rooted(tables, sz) && tables <= tables' <= tables + more && forall t :: t in more ==> t.pid in sz
    ensures Rooted(tables', sz)
  {
  }

  lemma PathsOwner(c: Pid, first: nat, n: int)
    ensures forall t :: t in Paths(c, first, n) ==> t.pid == c
  {
  }

  /** Whether uvmcowpy succeeded or not. */
  lemma ForkOk(m: Mem, m1: Mem, m2: Mem, sz: map<Pid, nat>, trapframe: map<Pid, Frame>, p: Pid, c: Pid, f: Frame, ok: bool, upto: nat)
    requires Ok(m, sz, trapframe) && p in sz && c !in sz && ProcMade(m, m1, c, Some(f))
    requires var n := Pages(sz[p]);
             if ok then RangeShared(m1, m2, p, c, n) else RangeMarked(m1, m2, p, upto, Paths(c, 0, n))
    ensures Ok(m2, sz[c := sz[p]], trapframe[c := f])
  {
    hide Good, View, Rooted, Sized, Injective, Loose, Pages, Range, Paths, Marks, Forked, ForkedMarks, CowedMarks, RangeShared,
      RangeMarked, ProcMade, TablesAdded, Grew, Kept;
    var n, sz', tf' := Pages(sz[p]), sz[c := sz[p]], trapframe[c := f];
    CreateOk(m, m1, sz, trapframe, c, sz[p], f);
    PathsOwner(c, 0, n);
    MadeFacts(m, m1, c, Some(f));
    if ok {
      SharedCounts(m1, m2, p, c, n);
      FillSized(m.leaf.Keys, sz, c, sz[p]);
    } else {
      MarkedCounts(m1, m2, p, upto, Paths(c, 0, n));
    }
    OkGrew(m1, m2, sz', tf', Paths(c, 0, n));
  }

  /** More page-table pages, and pages to match the sizes. */
  lemma OkGrew(m: Mem, m': Mem, sz: map<Pid, nat>, trapframe: map<Pid, Frame>, more: set<Table>)
    requires Ok(m, sz, trapframe) && Good(m') && Kept(m, m') && Grew(m.tables, m'.tables, more) && Sized(m'.leaf.Keys, sz)
    requires forall t :: t in more ==> t.pid in sz
    ensures Ok(m', sz, trapframe)
  {
    hide Good, Rooted, Sized, Injective, Loose, Grew;
    GrewKeys(m.tables, m'.tables, more);
    GrewRooted(m.tables.Keys, m'.tables.Keys, sz, more);
  }

  lemma MarkedCounts(m: Mem, m': Mem, p: Pid, upto: nat, more: set<Table>)
    requires RangeMarked(m, m', p, upto, more)
    ensures Good(m') && Kept(m, m') && Grew(m.tables, m'.tables, more) && m'.leaf.Keys == m.leaf.Keys
    ensures LeafOk(m) && LeafOk(m') && View(m') == View(m) && Marks(m'.leaf) == CowedMarks(Marks(m.leaf), p, upto)
  {
    hide Good, View, Kept, Grew, Marks, CowedMarks;
    GoodLeaf(m);
    GoodLeaf(m');
    MarksKeys(m.leaf);
    MarksKeys(m'.leaf);
    CowedKeys(Marks(m.leaf), p, upto);
  }

  lemma ForkDoes(m: Mem, m1: Mem, m2: Mem, sz: map<Pid, nat>, trapframe: map<Pid, Frame>, p: Pid, c: Pid, f: Frame,
                 ok: bool, upto: nat)
    requires Ok(m, sz, trapframe) && p in sz && c !in sz && ProcMade(m, m1, c, Some(f)) && LeafOk(m) && |m.freelist| >= EMPTY
    requires !(Pages(sz[p]) > 0 && Key(p, 0) !in m.leaf)
    requires var n := Pages(sz[p]);
             && (ok <==> |Paths(c, 0, n) - m1.tables.Keys| <= |m1.freelist|)
             && if ok then RangeShared(m1, m2, p, c, n) else RangeMarked(m1, m2, p, upto, Paths(c, 0, n))
    ensures Ok(m2, sz[c := sz[p]], trapframe[c := f]) && LeafOk(m2) && m2.frames.Keys == m.frames.Keys
    ensures Does(SnapOf(m, sz), SnapOf(m2, sz[c := sz[p]]), Fork(p, c), Done)
    ensures Costs(SnapOf(m, sz), SnapOf(m2, sz[c := sz[p]]), Fork(p, c))
    ensures Hollows(SnapOf(m, sz), Fork(p, c)) ==> LeavesHollow(SnapOf(m, sz), SnapOf(m2, sz[c := sz[p]]), p, c)
  {
    hide Good, View, LeafOk, Ok, ProcMade, RangeShared, RangeMarked, Pages, Range, Paths, TablesFor, TablesOf, Top, Does, Hollows,
      LeavesHollow, Marks, Alone, SnapOf, Costs;
    ForkOk(m, m1, m2, sz, trapframe, p, c, f, ok, upto);
    OkGood(m2, sz[c := sz[p]], trapframe[c := f]);
    OkAbsent(m, sz, trapframe, c);
    OkRuns(m, sz, trapframe, p);
    ForkSmall(m, sz, trapframe, p);
    ForkTables(m, m1, c, Pages(sz[p]), f);
    ForkFrames(m, m1, m2, p, c, f, Pages(sz[p]), ok, upto);
    if ok {
      ForkWhole(m, m1, m2, sz, trapframe, p, c, f);
    } else {
      ForkHollows(m, m1, m2, sz, trapframe, p, c, f, upto);
    }
  }

  lemma ForkFrames(m: Mem, m1: Mem, m2: Mem, p: Pid, c: Pid, f: Frame, n: nat, ok: bool, upto: nat)
    requires ProcMade(m, m1, c, Some(f))
    requires if ok then RangeShared(m1, m2, p, c, n) else RangeMarked(m1, m2, p, upto, Paths(c, 0, n))
    ensures m2.frames.Keys == m.frames.Keys
  {
    hide Good, View, Loose, Marks, Forked, ForkedMarks, CowedMarks, Range, Paths, TablesAdded, Grew, Top;
  }

  lemma ForkWhole(m: Mem, m1: Mem, m2: Mem, sz: map<Pid, nat>, trapframe: map<Pid, Frame>, p: Pid, c: Pid, f: Frame)
    requires Ok(m, sz, trapframe) && p in sz && c !in sz && ProcMade(m, m1, c, Some(f)) && LeafOk(m) && LeafOk(m2)
    requires !(Pages(sz[p]) > 0 && Key(p, 0) !in m.leaf)
    requires var n := Pages(sz[p]);
             && RangeShared(m1, m2, p, c, n) && |m.freelist| >= EMPTY + TablesFor(n)
             && |Paths(c, 0, n) - m1.tables.Keys| == TablesFor(n)
    ensures Does(SnapOf(m, sz), SnapOf(m2, sz[c := sz[p]]), Fork(p, c), Done) && !Hollows(SnapOf(m, sz), Fork(p, c))
    ensures Costs(SnapOf(m, sz), SnapOf(m2, sz[c := sz[p]]), Fork(p, c))
  {
    hide Ok, Good, View, Marks, Alone, Loose, Top, Pages, Forked, ForkedMarks, Range, Paths, TablesFor, Grew, Kept, LeafOk,
      RangeShared, ProcMade;
    MarksAt(m.leaf, Key(p, 0));
    ForkSees(m, m1, m2, p, c, f, Pages(sz[p]));
  }

  lemma ForkSees(m: Mem, m1: Mem, m2: Mem, p: Pid, c: Pid, f: Frame, n: nat)
    requires ProcMade(m, m1, c, Some(f)) && RangeShared(m1, m2, p, c, n) && LeafOk(m) && LeafOk(m2)
    ensures View(m2) == Forked(View(m), p, c, n) && Marks(m2.leaf) == ForkedMarks(Marks(m.leaf), p, c, n)
    ensures |m2.freelist| + EMPTY + |Paths(c, 0, n) - m1.tables.Keys| == |m.freelist|
  {
    hide Good, View, Marks, Loose, Top, Forked, ForkedMarks, Range, Paths, Grew, Kept, LeafOk;
    MissingAll(m1.tables.Keys, m2.tables.Keys, Paths(c, 0, n));
  }

  lemma ForkHollows(m: Mem, m1: Mem, m2: Mem, sz: map<Pid, nat>, trapframe: map<Pid, Frame>, p: Pid, c: Pid, f: Frame, upto: nat)
    requires Ok(m, sz, trapframe) && p in sz && c !in sz && ProcMade(m, m1, c, Some(f)) && LeafOk(m) && LeafOk(m2)
    requires !(Pages(sz[p]) > 0 && Key(p, 0) !in m.leaf) && NoPages(m.leaf.Keys, c)
    requires var n := Pages(sz[p]);
             RangeMarked(m1, m2, p, upto, Paths(c, 0, n)) && EMPTY <= |m.freelist| < EMPTY + TablesFor(n)
    ensures Does(SnapOf(m, sz), SnapOf(m2, sz[c := sz[p]]), Fork(p, c), Done)
    ensures Costs(SnapOf(m, sz), SnapOf(m2, sz[c := sz[p]]), Fork(p, c))
    ensures LeavesHollow(SnapOf(m, sz), SnapOf(m2, sz[c := sz[p]]), p, c)
  {
    hide Ok, Good, View, Marks, Alone, Loose, Top, Forked, ForkedMarks, Range, Paths, Kept, RangeMarked, Grew, CowedMarks, LeafOk;
    MarksAt(m.leaf, Key(p, 0));
    MarkedCounts(m1, m2, p, upto, Paths(c, 0, Pages(sz[p])));
    MarksKeys(m2.leaf);
    assert Pages(sz[p]) > 0;
    assert SnapOf(m2, sz[c := sz[p]]).marks == CowedMarks(SnapOf(m, sz).marks, p, upto);
  }

  lemma OkGood(m: Mem, sz: map<Pid, nat>, trapframe: map<Pid, Frame>)
    requires Ok(m, sz, trapframe)
    ensures Good(m) && LeafOk(m) && |m.frames.Keys| <= NFRAMES
  {
    hide Good, Rooted, Sized, Injective;
    GoodLeaf(m);
  }

  lemma FailDoes(m: Mem, m': Mem, sz: map<Pid, nat>, trapframe: map<Pid, Frame>, op: Op)
    requires Ok(m, sz, trapframe) && Ok(m', sz, trapframe) && m'.leaf == m.leaf && LeafOk(m) && LeafOk(m') && View(m') == View(m)
    requires CowOut(SnapOf(m, sz), op) == Fail && (op.Store? ==> m' == m)
    ensures Does(SnapOf(m, sz), SnapOf(m', sz), op, Fail) && Costs(SnapOf(m, sz), SnapOf(m', sz), op)
  {
    hide Ok, View, Marks, Alone;
  }

  lemma MadeFacts(m: Mem, m': Mem, p: Pid, tf: Option<Frame>)
    requires ProcMade(m, m', p, tf)
    ensures Good(m) && Good(m') && LeafOk(m) && LeafOk(m') && View(m') == View(m) && m'.leaf == m.leaf
    ensures m'.frames.Keys == m.frames.Keys
  {
    hide Good, View, Loose, Top;
    GoodLeaf(m);
    GoodLeaf(m');
  }

  lemma MadeNothing(m: Mem, m': Mem, sz: map<Pid, nat>, trapframe: map<Pid, Frame>, p: Pid)
    requires Ok(m, sz, trapframe) && ProcMade(m, m', p, None)
    ensures Ok(m', sz, trapframe)
  {
    hide Good, View, Rooted, Sized, Injective, Loose;
    OkSame(m, m', sz, trapframe);
  }

  lemma AddValue(tf: map<Pid, Frame>, p: Pid, f: Frame)
    requires Injective(tf) && p !in tf && f !in tf.Values
    ensures Injective(tf[p := f]) && tf[p := f].Values == tf.Values + {f} && tf[p := f].Keys == tf.Keys + {p}
  {
    var tf' := tf[p := f];
    assert tf'[p] == f;
    forall v | v in tf.Values
      ensures v in tf'.Values
    {
      var q :| q in tf && tf[q] == v;
      assert tf'[q] == v;
    }
    forall q | q in tf
      ensures tf[q] != f
    {
      assert tf[q] in tf.Values;
    }
  }

  lemma AddRooted(tables: set<Table>, sz: map<Pid, nat>, p: Pid, size: nat)
    requires Rooted(tables, sz)
    ensures Rooted(tables + Top(p), sz[p := size])
  {
  }

  lemma AddSized(keys: set<Key>, sz: map<Pid, nat>, p: Pid, size: nat)
    requires Sized(keys, sz) && p !in sz
    ensures NoPages(keys, p) && Sized(keys, sz[p := size])
  {
    hide Pages;
  }

  lemma MadeParts(m: Mem, m': Mem, p: Pid, f: Frame)
    requires ProcMade(m, m', p, Some(f))
    ensures Good(m') && m'.leaf.Keys == m.leaf.Keys && m'.frames.Keys == m.frames.Keys
    ensures m'.tables.Keys == m.tables.Keys + Top(p) && Loose(m') == Loose(m) + {f} && f !in Loose(m)
  {
    hide Good, View, Loose, Top;
  }

  lemma AddTrapframe(loose: set<Frame>, loose': set<Frame>, sz: map<Pid, nat>, tf: map<Pid, Frame>, p: Pid, size: nat, f: Frame)
    requires tf.Keys == sz.Keys && Injective(tf) && loose == tf.Values && p !in sz && f !in loose && loose' == loose + {f}
    ensures tf[p := f].Keys == sz[p := size].Keys && Injective(tf[p := f]) && loose' == tf[p := f].Values
  {
    hide Injective;
    AddValue(tf, p, f);
    assert sz[p := size].Keys == sz.Keys + {p};
  }

  /** A new process, which has no pages yet whatever its size. */
  lemma CreateOk(m: Mem, m': Mem, sz: map<Pid, nat>, trapframe: map<Pid, Frame>, p: Pid, size: nat, f: Frame)
    requires Ok(m, sz, trapframe) && p !in sz && ProcMade(m, m', p, Some(f))
    ensures Ok(m', sz[p := size], trapframe[p := f])
  {
    hide Good, View, Rooted, Sized, Injective, Loose, Top, ProcMade;
    MadeParts(m, m', p, f);
    AddTrapframe(Loose(m), Loose(m'), sz, trapframe, p, size, f);
    AddRooted(m.tables.Keys, sz, p, size);
    AddSized(m.leaf.Keys, sz, p, size);
  }

  lemma CreateDoes(m: Mem, m': Mem, sz: map<Pid, nat>, trapframe: map<Pid, Frame>, p: Pid, tf: Option<Frame>)
    requires Ok(m, sz, trapframe) && p !in sz && ProcMade(m, m', p, tf) && tf.Some? && |m.freelist| >= EMPTY
    requires LeafOk(m) && LeafOk(m')
    ensures Does(SnapOf(m, sz), SnapOf(m', sz[p := 0]), Create(p), Done)
    ensures Costs(SnapOf(m, sz), SnapOf(m', sz[p := 0]), Create(p))
  {
    hide Ok, Good, View, Marks, Alone, Loose, Top;
  }

  lemma ProcNone(m: Mem, p: Pid)
    requires Good(m)
    ensures ProcMade(m, m, p, None)
  {
    hide Good, View, Loose;
  }

  lemma PoppedFacts(m: Mem)
    requires Good(m) && m.freelist != []
    ensures Good(Popped(m)) && Popped(m).leaf == m.leaf && Popped(m).tables == m.tables && |Popped(m).freelist| == |m.freelist| - 1
  {
    hide Good, View;
    PopGood(m);
  }

  // Runs in which they can be told apart.

  lemma OnePage(p: Pid)
    ensures Pages(0) == 0 && Pages(PGSIZE) == 1 && Range(p, 0, 1) == {Key(p, 0)} && TablesFor(1) == 2
  {
  }

  lemma OneNeed(tables: set<Table>, p: Pid)
    ensures Need(tables, p, 0, 1) <= 3 && (tables == Top(p) ==> Need(tables, p, 0, 1) == 3)
  {
    hide Paths;
    PathsCount(p, 1);
    SubsetSize(Paths(p, 0, 1) - tables, Paths(p, 0, 1));
    PathsApart({}, p, 1);
    assert {} + Top(p) == Top(p);
  }

  /** A process of one page, with at least the given number of frames left. */
  ghost predicate Single(s: Snap, mark: Mark, free: nat) {
    && s.sz == map[1 := PGSIZE] && s.marks == map[Key(1, 0) := mark] && s.views.Keys == {Key(1, 0)} && s.free >= free
  }

  lemma SingleMade(s: Snap, t: Snap, op: Op, r: Out, w: bool, x: bool, free: nat)
    requires s.views == map[] && s.marks == map[] && s.sz == map[1 := 0] && s.free >= free + 3
    requires op == Extend(1, PGSIZE, w, x) || (op == Grow(1, PGSIZE) && w && !x)
    requires Does(s, t, op, r) && Costs(s, t, op)
    ensures r == Done && Single(t, NewMark(w, x), free) && t.free + Need(s.tables, 1, 0, 1) == s.free
  {
    hide Need, Pages, TablesFor, Filled, Grown;
    OnePage(1);
    OneNeed(s.tables, 1);
    assert NeedTo(s, 1, PGSIZE) == Need(s.tables, 1, 0, 1);
    ResizedUp(s.marks, 1, 0, PGSIZE, NewMark(w, x));
    ResizedUp(s.views, 1, 0, PGSIZE, Filled(0));
    OneGrown(s.marks, NewMark(w, x));
    OneGrown(s.views, Filled(0));
  }

  lemma OneGrown<V>(v: map<Key, V>, blank: V)
    requires v == map[]
    ensures Grown(v, 1, 0, 1, blank) == map[Key(1, 0) := blank]
  {
    assert Range(1, 0, 1) == {Key(1, 0)};
  }

  lemma SingleForked(s: Snap, t: Snap, mark: Mark, r: Out)
    requires Single(s, mark, 7) && Does(s, t, Fork(1, 2), r) && Costs(s, t, Fork(1, 2))
    ensures r == Done && t.free > 0 && Key(1, 0) in t.marks && t.marks[Key(1, 0)] == Cowed(mark)
  {
    hide Pages, TablesFor, Forked, Need;
    OnePage(1);
    assert !Hollow(s, 1) && Pages(s.sz[1]) == 1;
    assert Key(1, 0) in Range(1, 0, 1) && Key(1, 0) !in Range(2, 0, 1);
    assert Key(1, 0) in CowedMarks(s.marks, 1, 1) && CowedMarks(s.marks, 1, 1)[Key(1, 0)] == Cowed(mark);
    ForkedKeeps(CowedMarks(s.marks, 1, 1), 1, 2, 1, Key(1, 0));
  }

  lemma SingleStored(s: Snap, t: Snap, mark: Mark, free: nat, va: nat, b: int, r: Out)
    requires Single(s, mark, free + 1) && va < PGSIZE && Does(s, t, Store(1, va, b), r) && Costs(s, t, Store(1, va, b)) && !mark.cow
    ensures r == (if mark.u && mark.w then Done else Fail) && Single(t, mark, free)
  {
    hide Patch;
    assert va / PGSIZE == 0;
    assert WrittenMarks(s.marks, 1, va, 1) == s.marks;
  }

  /** The reference machine with the same page. */
  lemma EagerGrown(e: Eager, w: bool, x: bool, op: Op)
    requires e.perm == map[] && e.sz == map[1 := 0]
    requires op == Extend(1, PGSIZE, w, x) || (op == Grow(1, PGSIZE) && w && !x)
    ensures EagerNext(e, op).perm == map[Key(1, 0) := NewMark(w, x)] && EagerNext(e, op).sz == map[1 := PGSIZE]
  {
    hide Pages, Filled, Grown, ResizedTo;
    OnePage(1);
    ResizedUp(e.perm, 1, 0, PGSIZE, NewMark(w, x));
    OneGrown(e.perm, NewMark(w, x));
  }

  lemma EagerCreated()
    ensures EagerNext(Eager(map[], map[], map[]), Create(1)) == Eager(map[], map[], map[1 := 0])
  {
  }

  lemma EagerLast(e: Eager, w: bool, x: bool, va: nat, b: int)
    requires e.perm == map[Key(1, 0) := NewMark(w, x)] && e.sz == map[1 := PGSIZE] && va < PGSIZE
    ensures var f := EagerNext(EagerNext(e, Store(1, va, b)), Fork(1, 2));
            EagerOut(f, Store(1, va, b)) == if w then Done else Fail
  {
    hide Pages, Write, Forked, EagerNext;
    assert va / PGSIZE == 0;
    StoreKeepsPerm(e, 1, va, b);
    ForkKeepsPerm(EagerNext(e, Store(1, va, b)), 1, 2, Key(1, 0));
  }

  lemma StoreKeepsPerm(e: Eager, p: Pid, va: nat, b: int)
    ensures EagerNext(e, Store(p, va, b)).perm == e.perm && EagerNext(e, Store(p, va, b)).sz == e.sz
  {
  }

  lemma ForkKeepsPerm(e: Eager, p: Pid, c: Pid, k: Key)
    requires k in e.perm && k.pid != c
    ensures var f := EagerNext(e, Fork(p, c)); k in f.perm && f.perm[k] == e.perm[k]
  {
    hide Pages;
  }

  // Runs that tell the two machines apart.

  const NOTHING: Eager := Eager(map[], map[], map[])

  function Fresh(frames: nat): Snap {
    Snap(map[], map[], {}, frames, {}, map[])
  }

  /** A run of a machine that starts with so many free frames and no process, cut short only by a panic. */
  ghost predicate RunFrom(frames: nat, ops: seq<Op>, outs: seq<Out>, snaps: seq<Snap>, es: seq<Eager>) {
    && IsRun(ops, outs, snaps, es) && snaps[0] == Fresh(frames) && es[0] == NOTHING
    && (|outs| < |ops| ==> outs != [] && outs[|outs| - 1] == Panic)
  }

  /** Such a run, on a pool of that size. */
  method StartAndRun(frames: nat, ops: seq<Op>) returns (outs: seq<Out>, ghost snaps: seq<Snap>, ghost es: seq<Eager>)
    requires frames <= NFRAMES
    ensures RunFrom(frames, ops, outs, snaps, es)
  {
    hide IsRun;
    var pool := seq(frames, i => i);
    var procs := new Processes(pool);
    outs, snaps, es := procs.Run(ops, NOTHING);
  }

  /** One step, with the frames it takes. */
  ghost predicate Step(s: Snap, t: Snap, op: Op, r: Out) {
    && Does(s, t, op, r) && Costs(s, t, op)
    && (op.Fork? && Hollows(s, op) ==> LeavesHollow(s, t, op.p, op.c))
  }

  /** The next step of a run that has not panicked. */
  lemma RunStep(frames: nat, ops: seq<Op>, outs: seq<Out>, snaps: seq<Snap>, es: seq<Eager>, i: nat, op: Op)
    requires RunFrom(frames, ops, outs, snaps, es) && i < |ops| && op == ops[i]
    requires i <= |outs| && (i > 0 ==> outs[i - 1] != Panic)
    ensures i < |outs| <= |ops| && |snaps| == |es| == |outs| + 1 && snaps[0] == Fresh(frames) && es[0] == NOTHING
    ensures Step(snaps[i], snaps[i + 1], op, outs[i]) && es[i + 1] == EagerNext(es[i], op)
  {
    hide Does, Costs, Hollows, LeavesHollow;
    assert i < |outs|;
    assert StepOk(snaps[i], snaps[i + 1], es[i], es[i + 1], ops[i], outs[i]);
  }

  lemma FirstStep(frames: nat, ops: seq<Op>, outs: seq<Out>, snaps: seq<Snap>, es: seq<Eager>)
    requires RunFrom(frames, ops, outs, snaps, es) && frames >= EMPTY && ops != [] && ops[0] == Create(1)
    ensures 1 <= |outs| <= |ops| && |snaps| == |es| == |outs| + 1 && outs[0] == Done
    ensures Started(snaps[1], frames) && es[1] == Eager(map[], map[], map[1 := 0])
  {
    hide Does, Costs, Hollows, LeavesHollow, EagerNext, RunFrom;
    RunStep(frames, ops, outs, snaps, es, 0, Create(1));
    CreatedFirst(snaps[0], snaps[1], outs[0]);
    EagerCreated();
  }

  /** Process 1 without memory. */
  predicate Started(s: Snap, frames: nat) {
    s.views == map[] && s.marks == map[] && s.sz == map[1 := 0] && s.free + EMPTY == frames && s.tables == Top(1)
  }

  /** One page, a store to it, a fork, and the same store again. */
  function StoreForkStore(grow: Op, va: nat, b: int): seq<Op> {
    [Create(1), grow, Store(1, va, b), Fork(1, 2), Store(1, va, b)]
  }

  lemma StoresTold(grow: Op, w: bool, x: bool, va: nat, b: int, outs: seq<Out>, snaps: seq<Snap>, es: seq<Eager>)
    requires va < PGSIZE && (grow == Extend(1, PGSIZE, w, x) || (grow == Grow(1, PGSIZE) && w && !x))
    requires RunFrom(32, StoreForkStore(grow, va, b), outs, snaps, es)
    ensures outs == [Done, Done, if w then Done else Fail, Done, if va == 0 then Fail else Done]
    ensures EagerOut(es[4], Store(1, va, b)) == if w then Done else Fail
  {
    hide RunFrom, Step, EagerOut, EagerNext, Single, Started, Shared;
    var ops := StoreForkStore(grow, va, b);
    FirstStep(32, ops, outs, snaps, es);
    RunStep(32, ops, outs, snaps, es, 1, grow);
    GrowStep(snaps[1], snaps[2], grow, outs[1], w, x, 32, es[1]);
    RunStep(32, ops, outs, snaps, es, 2, Store(1, va, b));
    StoreStep(snaps[2], snaps[3], w, x, va, b, outs[2]);
    RunStep(32, ops, outs, snaps, es, 3, Fork(1, 2));
    ForkStep(snaps[3], snaps[4], w, x, outs[3]);
    RunStep(32, ops, outs, snaps, es, 4, Store(1, va, b));
    CowStored(snaps[4], snaps[5], va, b, outs[4]);
    EagerLast(es[2], w, x, va, b);
  }

  lemma GrowStep(s: Snap, t: Snap, op: Op, r: Out, w: bool, x: bool, frames: nat, e: Eager)
    requires Started(s, frames) && frames >= 11 && Step(s, t, op, r)
    requires op == Extend(1, PGSIZE, w, x) || (op == Grow(1, PGSIZE) && w && !x)
    ensures r == Done && Single(t, NewMark(w, x), frames - 7) && t.free == frames - 7
    ensures e == Eager(map[], map[], map[1 := 0]) ==>
              EagerNext(e, op).perm == map[Key(1, 0) := NewMark(w, x)] && EagerNext(e, op).sz == map[1 := PGSIZE]
  {
    hide Does, Costs, Hollows, LeavesHollow, EagerNext;
    OneNeed(s.tables, 1);
    SingleMade(s, t, op, r, w, x, frames - 7);
    if e == Eager(map[], map[], map[1 := 0]) {
      EagerGrown(e, w, x, op);
    }
  }

  lemma StoreStep(s: Snap, t: Snap, w: bool, x: bool, va: nat, b: int, r: Out)
    requires Single(s, NewMark(w, x), 25) && va < PGSIZE && Step(s, t, Store(1, va, b), r)
    ensures r == (if w then Done else Fail) && Single(t, NewMark(w, x), 24)
  {
    hide Does, Costs, Hollows, LeavesHollow;
    SingleStored(s, t, NewMark(w, x), 24, va, b, r);
  }

  /** Page 0 of process 1 is COW, and there is a frame. */
  predicate Shared(s: Snap) {
    s.free > 0 && Key(1, 0) in s.marks && s.marks[Key(1, 0)].cow && s.marks[Key(1, 0)].u
  }

  lemma ForkStep(s: Snap, t: Snap, w: bool, x: bool, r: Out)
    requires Single(s, NewMark(w, x), 24) && Step(s, t, Fork(1, 2), r)
    ensures r == Done && Shared(t)
  {
    hide Does, Costs, Hollows, LeavesHollow;
    SingleForked(s, t, NewMark(w, x), r);
  }

  /**
   One page, mapped by grow with write permission or without, on a machine of 32 frames: what the store returns before and
   after the fork, and what it returns after a fork that copies.
   */
  method TellsStores(grow: Op, w: bool, x: bool, va: nat, b: int)
    returns (outs: seq<Out>, ghost snaps: seq<Snap>, ghost es: seq<Eager>)
    requires va < PGSIZE && (grow == Extend(1, PGSIZE, w, x) || (grow == Grow(1, PGSIZE) && w && !x))
    ensures RunFrom(32, StoreForkStore(grow, va, b), outs, snaps, es)
    ensures outs == [Done, Done, if w then Done else Fail, Done, if va == 0 then Fail else Done]
    ensures EagerOut(es[4], Store(1, va, b)) == if w then Done else Fail
  {
    hide EagerOut;
    outs, snaps, es := StartAndRun(32, StoreForkStore(grow, va, b));
    StoresTold(grow, w, x, va, b, outs, snaps, es);
  }

  lemma CopyoutTold(b: int, outs: seq<Out>, snaps: seq<Snap>, es: seq<Eager>)
    requires RunFrom(32, [Create(1), Grow(1, PGSIZE), CopyOut(1, 0, [b])], outs, snaps, es)
    ensures outs == [Done, Done, Count(0)] && EagerOut(es[2], CopyOut(1, 0, [b])) == Count(1)
  {
    hide RunFrom, Step, EagerOut, EagerNext, Single, Started;
    var ops := [Create(1), Grow(1, PGSIZE), CopyOut(1, 0, [b])];
    FirstStep(32, ops, outs, snaps, es);
    RunStep(32, ops, outs, snaps, es, 1, Grow(1, PGSIZE));
    GrowStep(snaps[1], snaps[2], Grow(1, PGSIZE), outs[1], true, false, 32, es[1]);
    RunStep(32, ops, outs, snaps, es, 2, CopyOut(1, 0, [b]));
    SingleCopies(snaps[2], snaps[3], b, outs[2]);
    EagerCopies(es[2], b);
  }

  /** copyout to page 0: nothing is copied, though the page is there and can be written. */
  method TellsCopyout(b: int) returns (outs: seq<Out>, ghost snaps: seq<Snap>, ghost es: seq<Eager>)
    ensures RunFrom(32, [Create(1), Grow(1, PGSIZE), CopyOut(1, 0, [b])], outs, snaps, es)
    ensures outs == [Done, Done, Count(0)] && EagerOut(es[2], CopyOut(1, 0, [b])) == Count(1)
  {
    hide EagerOut;
    outs, snaps, es := StartAndRun(32, [Create(1), Grow(1, PGSIZE), CopyOut(1, 0, [b])]);
    CopyoutTold(b, outs, snaps, es);
  }

  lemma EagerCopies(e: Eager, b: int)
    requires e.perm == map[Key(1, 0) := NewMark(true, false)]
    ensures EagerOut(e, CopyOut(1, 0, [b])) == Count(1)
  {
    assert Readable(e.perm, 1, 0) && Chunk(0, 1) == 1;
  }

  lemma SingleCopies(s: Snap, t: Snap, b: int, r: Out)
    requires Step(s, t, CopyOut(1, 0, [b]), r)
    ensures r == Count(0)
  {
  }

  lemma CreatedFirst(s: Snap, t: Snap, r: Out)
    requires s.views == map[] && s.marks == map[] && s.sz == map[] && s.tables == {} && s.free >= EMPTY
    requires Does(s, t, Create(1), r) && Costs(s, t, Create(1))
    ensures r == Done && t.views == map[] && t.marks == map[] && t.sz == map[1 := 0] && t.free + EMPTY == s.free && t.tables == Top(1)
  {
    assert {} + Top(1) == Top(1);
  }

  lemma CowStored(s: Snap, t: Snap, va: nat, b: int, r: Out)
    requires Shared(s) && va < PGSIZE && Step(s, t, Store(1, va, b), r)
    ensures r == if va == 0 then Fail else Done
  {
    assert va / PGSIZE == 0;
  }

  lemma HollowTold(outs: seq<Out>, snaps: seq<Snap>, es: seq<Eager>)
    requires RunFrom(11, [Create(1), Grow(1, PGSIZE), Fork(1, 2), Exit(2)], outs, snaps, es)
    ensures outs == [Done, Done, Done, Panic] && Hollow(snaps[3], 2)
  {
    hide RunFrom, Step, Hollow, Single, Started, EagerNext;
    var ops := [Create(1), Grow(1, PGSIZE), Fork(1, 2), Exit(2)];
    FirstStep(11, ops, outs, snaps, es);
    RunStep(11, ops, outs, snaps, es, 1, Grow(1, PGSIZE));
    GrowStep(snaps[1], snaps[2], Grow(1, PGSIZE), outs[1], true, false, 11, es[1]);
    RunStep(11, ops, outs, snaps, es, 2, Fork(1, 2));
    SingleHollows(snaps[2], snaps[3], outs[2]);
    RunStep(11, ops, outs, snaps, es, 3, Exit(2));
    HollowExits(snaps[3], snaps[4], outs[3]);
  }

  /** With eleven frames, a process of one page can fork a child that has none; and when that exits, the kernel panics. */
  method HollowPanics() returns (outs: seq<Out>, ghost snaps: seq<Snap>, ghost es: seq<Eager>)
    ensures RunFrom(11, [Create(1), Grow(1, PGSIZE), Fork(1, 2), Exit(2)], outs, snaps, es)
    ensures outs == [Done, Done, Done, Panic] && Hollow(snaps[3], 2)
  {
    outs, snaps, es := StartAndRun(11, [Create(1), Grow(1, PGSIZE), Fork(1, 2), Exit(2)]);
    HollowTold(outs, snaps, es);
  }

  lemma SingleHollows(s: Snap, t: Snap, r: Out)
    requires Single(s, NewMark(true, false), 4) && s.free == 4 && Step(s, t, Fork(1, 2), r)
    ensures r == Done && Hollow(t, 2)
  {
    hide Pages, TablesFor, CowNext, Need, CowedMarks;
    OnePage(1);
    assert !Hollow(s, 1) && Pages(s.sz[1]) == 1;
  }

  lemma HollowExits(s: Snap, t: Snap, r: Out)
    requires Hollow(s, 2) && Step(s, t, Exit(2), r)
    ensures r == Panic
  {
  }
}

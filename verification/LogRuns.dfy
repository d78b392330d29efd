/**
 Runs of the log over the buffer cache: begin_op, bread, modify, log_write, brelse and end_op by
 concurrent processes, the commit of kernel/log.c one disk write at a time, power failure anywhere,
 and recovery. The main theorem is that every run refines an atomic store whose durable contents
 change only by whole commit groups; the second is that log space reservation never fails.
 */
module LogRuns {
  import opened Collections
  import opened RedoLog

  const NBUF: nat := 30

  type Proc = nat

  /** struct buf, without the list links: which are the subject of module BufferCache. */
  datatype Buf = Buf(valid: bool, data: Block, refcnt: int, owner: Option<Proc>)

  /**
   Where the log is. Running is log.committing == 0; the others follow commit() or, when recovering,
   recover_from_log(); Booting is the state after power returns, before read_head.
   */
  datatype Phase =
    | Running
    | Copying(k: nat)
    | Installing(k: nat, recovering: bool)
    | Finishing
    | Booting

  /**
   refs holds (p, b) while p has a pointer to the buffer of block b, from bget to the decrement in brelse.
   ops maps each process between begin_op and end_op to the number of blocks it has newly logged.
   dirty is the set of blocks modified in the cache by their lock holder and not yet passed to log_write.
   worker is the process in commit() or recover_from_log().
   */
  datatype State = State(
    disk: Image,
    cache: map<int, Buf>,
    refs: set<(Proc, int)>,
    lh: seq<int>,
    ops: map<Proc, nat>,
    dirty: set<int>,
    phase: Phase,
    worker: Proc
  )

  // Steps of the system, each the code between two points where another process may run.

  predicate Holds(s: State, p: Proc, b: int) {
    b in s.cache && s.cache[b].owner == Some(p)
  }

  predicate HoldsValid(s: State, p: Proc, b: int) {
    Holds(s, p, b) && s.cache[b].valid
  }

  ghost predicate BeginOp(s: State, s': State, p: Proc) {
    && s.phase == Running
    && p !in s.ops
    && |s.lh| + (|s.ops| + 1) * MAXOPBLOCKS <= LOGSIZE
    && s' == s.(ops := s.ops[p := 0])
  }

  ghost predicate BgetHit(s: State, s': State, p: Proc, b: int) {
    && (p, b) !in s.refs
    && b in s.cache
    && s' == s.(cache := s.cache[b := s.cache[b].(refcnt := s.cache[b].refcnt + 1)], refs := s.refs + {(p, b)})
  }

  /** bget recycles some buffer whose refcnt is 0, or uses one never assigned. */
  ghost predicate BgetMiss(s: State, s': State, p: Proc, b: int, victim: Option<int>, junk: Block) {
    && 0 <= b < |s.disk|
    && b !in s.cache
    && (match victim
        case None => |s.cache| < NBUF
        case Some(v) => v in s.cache && s.cache[v].refcnt == 0)
    && var kept := if victim.Some? then s.cache - {victim.value} else s.cache;
    s' == s.(cache := kept[b := Buf(false, junk, 1, None)], refs := s.refs + {(p, b)})
  }

  ghost predicate LockBuf(s: State, s': State, p: Proc, b: int) {
    && (p, b) in s.refs
    && b in s.cache
    && s.cache[b].owner == None
    && s' == s.(cache := s.cache[b := s.cache[b].(owner := Some(p))])
  }

  /** bread's virtio_disk_rw(b, 0) on an invalid buffer. */
  ghost predicate ReadBuf(s: State, s': State, p: Proc, b: int) {
    && Holds(s, p, b)
    && !s.cache[b].valid
    && 0 <= b < |s.disk|
    && s' == s.(cache := s.cache[b := s.cache[b].(valid := true, data := s.disk[b])])
  }

  ghost predicate Modify(a: Area, s: State, s': State, p: Proc, b: int, data: Block) {
    && p in s.ops
    && HoldsValid(s, p, b)
    && Home(a, s.disk, b)
    && s' == s.(cache := s.cache[b := s.cache[b].(data := data)], dirty := s.dirty + {b})
  }

  predicate TooBig(a: Area, s: State) {
    |s.lh| >= LOGSIZE || |s.lh| >= a.size - 1
  }

  /** log_write, past its panics; a block already in the header is absorbed. */
  ghost predicate LogWrite(a: Area, s: State, s': State, p: Proc, b: int) {
    && p in s.ops
    && HoldsValid(s, p, b)
    && Home(a, s.disk, b)
    && !TooBig(a, s)
    && if b in s.lh
       then s' == s.(dirty := s.dirty - {b})
       else s' == s.(
              cache := s.cache[b := s.cache[b].(refcnt := s.cache[b].refcnt + 1)],
              lh := s.lh + [b],
              ops := s.ops[p := s.ops[p] + 1],
              dirty := s.dirty - {b})
  }

  /** brelse's releasesleep: callers have passed what they modified to log_write. */
  ghost predicate UnlockBuf(s: State, s': State, p: Proc, b: int) {
    && Holds(s, p, b)
    && b !in s.dirty
    && s' == s.(cache := s.cache[b := s.cache[b].(owner := None)])
  }

  /** brelse's decrement. */
  ghost predicate DropBuf(s: State, s': State, p: Proc, b: int) {
    && (p, b) in s.refs
    && b in s.cache
    && s.cache[b].owner != Some(p)
    && s' == s.(cache := s.cache[b := s.cache[b].(refcnt := s.cache[b].refcnt - 1)], refs := s.refs - {(p, b)})
  }

  ghost predicate EndOp(s: State, s': State, p: Proc) {
    && p in s.ops
    && (forall b :: b in s.dirty ==> !Holds(s, p, b))
    && var ops := s.ops - {p};
    s' == if ops != map[] then s.(ops := ops)
          else s.(ops := ops, phase := if s.lh == [] then Finishing else Copying(0), worker := p)
  }

  /** One iteration of write_log. */
  ghost predicate CopyToLog(a: Area, s: State, s': State) {
    && s.phase.Copying?
    && s.phase.k < |s.lh|
    && var from, to := s.lh[s.phase.k], a.start + 1 + s.phase.k;
    && HoldsValid(s, s.worker, from)
    && HoldsValid(s, s.worker, to)
    && to < |s.disk|
    && s' == s.(
         cache := s.cache[to := s.cache[to].(data := s.cache[from].data)],
         disk := s.disk[to := s.cache[from].data],
         phase := Copying(s.phase.k + 1))
  }

  /** commit()'s first write_head. */
  ghost predicate CommitHead(a: Area, s: State, s': State) {
    && s.phase == Copying(|s.lh|)
    && |s.lh| <= LOGSIZE
    && HoldsValid(s, s.worker, a.start)
    && a.start < |s.disk|
    && WfBlock(s.cache[a.start].data)
    && var head := PutHead(s.cache[a.start].data, s.lh);
    s' == s.(
      cache := s.cache[a.start := s.cache[a.start].(data := head)],
      disk := s.disk[a.start := head],
      phase := Installing(0, false))
  }

  /** One iteration of install_trans; bunpin only when not recovering. */
  ghost predicate Install(a: Area, s: State, s': State) {
    && s.phase.Installing?
    && s.phase.k < |s.lh|
    && var from, to := a.start + 1 + s.phase.k, s.lh[s.phase.k];
    && HoldsValid(s, s.worker, from)
    && HoldsValid(s, s.worker, to)
    && 0 <= to < |s.disk|
    && var unpin := if s.phase.recovering then 0 else 1;
    s' == s.(
      cache := s.cache[to := s.cache[to].(data := s.cache[from].data, refcnt := s.cache[to].refcnt - unpin)],
      disk := s.disk[to := s.cache[from].data],
      phase := s.phase.(k := s.phase.k + 1))
  }

  /** log.lh.n = 0 and the write_head that erases the transaction. */
  ghost predicate ClearHead(a: Area, s: State, s': State) {
    && s.phase.Installing?
    && s.phase.k == |s.lh|
    && HoldsValid(s, s.worker, a.start)
    && a.start < |s.disk|
    && WfBlock(s.cache[a.start].data)
    && var head := PutHead(s.cache[a.start].data, []);
    s' == s.(
      cache := s.cache[a.start := s.cache[a.start].(data := head)],
      disk := s.disk[a.start := head],
      lh := [],
      phase := if s.phase.recovering then Running else Finishing)
  }

  ghost predicate FinishCommit(s: State, s': State) {
    s.phase == Finishing && s' == s.(phase := Running)
  }

  /** Power fails: memory is lost, the disk is not. worker is the process that will recover. */
  ghost predicate Crash(s: State, s': State, worker: Proc) {
    s' == State(s.disk, map[], {}, [], map[], {}, Booting, worker)
  }

  ghost predicate ReadHead(a: Area, s: State, s': State) {
    && s.phase == Booting
    && HoldsValid(s, s.worker, a.start)
    && s' == s.(lh := HeadOf(s.cache[a.start].data), phase := Installing(0, true))
  }

  /** The steps, with the process, block and data that they concern. */
  datatype Step =
    | BgetHitStep(p: Proc, b: int)
    | BgetMissStep(p: Proc, b: int, victim: Option<int>, junk: Block)
    | LockBufStep(p: Proc, b: int)
    | ReadBufStep(p: Proc, b: int)
    | UnlockBufStep(p: Proc, b: int)
    | DropBufStep(p: Proc, b: int)
    | BeginOpStep(p: Proc)
    | ModifyStep(p: Proc, b: int, data: Block)
    | LogWriteStep(p: Proc, b: int)
    | EndOpStep(p: Proc)
    | CopyToLogStep
    | CommitHeadStep
    | InstallStep
    | ClearHeadStep
    | FinishCommitStep
    | CrashStep(p: Proc)
    | ReadHeadStep

  ghost predicate Does(a: Area, s: State, s': State, step: Step) {
    match step
    case BgetHitStep(p, b) => BgetHit(s, s', p, b)
    case BgetMissStep(p, b, victim, junk) => BgetMiss(s, s', p, b, victim, junk)
    case LockBufStep(p, b) => LockBuf(s, s', p, b)
    case ReadBufStep(p, b) => ReadBuf(s, s', p, b)
    case UnlockBufStep(p, b) => UnlockBuf(s, s', p, b)
    case DropBufStep(p, b) => DropBuf(s, s', p, b)
    case BeginOpStep(p) => BeginOp(s, s', p)
    case ModifyStep(p, b, data) => Modify(a, s, s', p, b, data)
    case LogWriteStep(p, b) => LogWrite(a, s, s', p, b)
    case EndOpStep(p) => EndOp(s, s', p)
    case CopyToLogStep => CopyToLog(a, s, s')
    case CommitHeadStep => CommitHead(a, s, s')
    case InstallStep => Install(a, s, s')
    case ClearHeadStep => ClearHead(a, s, s')
    case FinishCommitStep => FinishCommit(s, s')
    case CrashStep(p) => Crash(s, s', p)
    case ReadHeadStep => ReadHead(a, s, s')
  }

  ghost predicate Next(a: Area, s: State, s': State) {
    exists step :: Does(a, s, s', step)
  }

  /** Power-on with an intact log area. */
  ghost predicate Init(a: Area, s: State) {
    WfImage(a, s.disk) && s == State(s.disk, map[], {}, [], map[], {}, Booting, s.worker)
  }

  // The invariant.

  /** The blocks log_write has pinned and install_trans has not unpinned. */
  ghost predicate Pinned(s: State, b: int) {
    match s.phase
    case Running => b in s.lh
    case Copying(_) => b in s.lh
    case Installing(k, recovering) => !recovering && b in s.lh && Slot(s.lh, b) >= k
    case Finishing => false
    case Booting => false
  }

  ghost function RefsTo(refs: set<(Proc, int)>, b: int): set<(Proc, int)> {
    set r | r in refs && r.1 == b
  }

  /** refcnt counts the processes pointing at the buffer plus the log's pin, so a pinned buffer is never recycled. */
  ghost predicate CountsExact(s: State) {
    && (forall b :: b in s.cache ==> s.cache[b].refcnt == |RefsTo(s.refs, b)| + (if Pinned(s, b) then 1 else 0))
    && (forall r :: r in s.refs ==> r.1 in s.cache)
    && (forall b :: b in s.cache && s.cache[b].owner.Some? ==> (s.cache[b].owner.value, b) in s.refs)
  }

  /** A valid buffer equals its disk block unless it is being modified or is pinned by the log. */
  ghost predicate Coherent(s: State) {
    && (forall b :: b in s.cache ==> 0 <= b < |s.disk|)
    && (forall b :: b in s.cache && s.cache[b].valid && b !in s.dirty && !Pinned(s, b) ==> s.cache[b].data == s.disk[b])
    && (forall b :: Pinned(s, b) ==> b in s.cache && s.cache[b].valid)
  }

  ghost predicate DirtyOwned(a: Area, s: State) {
    forall b :: b in s.dirty ==>
      Home(a, s.disk, b) && b in s.cache && s.cache[b].valid && s.cache[b].owner.Some? && s.cache[b].owner.value in s.ops
  }

  /** The blocks in slots below k have been copied home. */
  ghost predicate InstalledTo(a: Area, d: Image, lh: seq<int>, k: nat)
    requires k <= |lh| && a.start + |lh| < |d|
  {
    forall i :: 0 <= i < k ==> 0 <= lh[i] < |d| && d[lh[i]] == d[a.start + 1 + i]
  }

  /** The cache holds what is in the slots from k on. */
  ghost predicate CachedFrom(a: Area, s: State, k: nat)
    requires a.start + |s.lh| < |s.disk|
  {
    forall i :: k <= i < |s.lh| ==> s.lh[i] in s.cache && s.cache[s.lh[i]].data == s.disk[a.start + 1 + i]
  }

  /** What the disk's log area holds in each phase. */
  ghost predicate PhaseOk(a: Area, s: State) {
    && WfImage(a, s.disk)
    && WfHead(a, s.disk, s.lh)
    && (s.phase != Running ==> s.ops == map[])
    && (s.ops == map[] && s.phase == Running ==> s.lh == [])
    && match s.phase
       case Running => Idle(a, s.disk)
       case Copying(k) =>
         && Idle(a, s.disk)
         && k <= |s.lh|
         && forall i :: 0 <= i < k ==> s.lh[i] in s.cache && s.disk[a.start + 1 + i] == s.cache[s.lh[i]].data
       case Installing(k, recovering) =>
         && HeadOf(s.disk[a.start]) == s.lh
         && k <= |s.lh|
         && InstalledTo(a, s.disk, s.lh, k)
         && (!recovering ==> CachedFrom(a, s, k))
       case Finishing => Idle(a, s.disk) && s.lh == []
       case Booting => s.lh == []
  }

  ghost predicate Inv(a: Area, s: State) {
    CountsExact(s) && Coherent(s) && DirtyOwned(a, s) && PhaseOk(a, s)
  }

  // The atomic store that the log implements.

  /** durable is what a power failure leaves, volatile what the operations have made of it so far. */
  datatype Store = Store(durable: map<int, Block>, volatile: map<int, Block>, active: set<Proc>)

  ghost predicate StoreBegin(t: Store, t': Store, p: Proc) {
    p !in t.active && t' == t.(active := t.active + {p})
  }

  ghost predicate StoreEnd(t: Store, t': Store, p: Proc) {
    p in t.active && t' == t.(active := t.active - {p})
  }

  ghost predicate StoreWrite(t: Store, t': Store, b: int, data: Block) {
    b in t.volatile && t' == t.(volatile := t.volatile[b := data])
  }

  /** Nothing, begin, end, a write inside an operation, a commit between operations, or a power failure. */
  ghost predicate StoreStep(t: Store, t': Store) {
    || t' == t
    || (exists p :: StoreBegin(t, t', p))
    || (exists p :: StoreEnd(t, t', p))
    || (t.active != {} && exists b, data :: StoreWrite(t, t', b, data))
    || (t.active == {} && t' == t.(durable := t.volatile))
    || t' == Store(t.durable, t.durable, {})
  }

  /** The contents of a home block as the file system sees them. */
  function ViewAt(s: State, b: int): Block
    requires 0 <= b < |s.disk|
  {
    if b in s.cache && s.cache[b].valid then s.cache[b].data else s.disk[b]
  }

  ghost predicate Recovering(s: State) {
    s.phase == Booting || (s.phase.Installing? && s.phase.recovering)
  }

  ghost function View(a: Area, s: State): map<int, Block>
    requires WfImage(a, s.disk)
  {
    if Recovering(s) then Recovered(a, s.disk) else map b | 0 <= b < |s.disk| && !InLog(a, b) :: ViewAt(s, b)
  }

  ghost function Abs(a: Area, s: State): Store
    requires WfImage(a, s.disk)
  {
    Store(Recovered(a, s.disk), View(a, s), s.ops.Keys)
  }

  // Steps that touch only buffers.

  lemma RefsAdd(refs: set<(Proc, int)>, p: Proc, b: int)
    requires (p, b) !in refs
    ensures |RefsTo(refs + {(p, b)}, b)| == |RefsTo(refs, b)| + 1
    ensures forall c :: c != b ==> RefsTo(refs + {(p, b)}, c) == RefsTo(refs, c)
  {
    assert RefsTo(refs + {(p, b)}, b) == RefsTo(refs, b) + {(p, b)};
  }

  lemma RefsRemove(refs: set<(Proc, int)>, p: Proc, b: int)
    requires (p, b) in refs
    ensures |RefsTo(refs - {(p, b)}, b)| == |RefsTo(refs, b)| - 1
    ensures forall c :: c != b ==> RefsTo(refs - {(p, b)}, c) == RefsTo(refs, c)
  {
    assert RefsTo(refs, b) == RefsTo(refs - {(p, b)}, b) + {(p, b)};
  }

  /** s' has the same log and disk, keeps every pinned or modified buffer, and each valid buffer shows what s showed. */
  ghost predicate Refresh(s: State, s': State) {
    && s' == s.(cache := s'.cache, refs := s'.refs)
    && (forall b :: b in s'.cache ==> 0 <= b < |s.disk|)
    && (forall b :: b in s'.cache && s'.cache[b].valid ==> s'.cache[b].data == ViewAt(s, b))
    && (forall b :: Pinned(s, b) ==> b in s'.cache && s'.cache[b].valid)
    && (forall b :: b in s.dirty ==> b in s.cache && b in s'.cache && s'.cache[b].valid && s'.cache[b].owner == s.cache[b].owner)
  }

  lemma RefreshKeeps(a: Area, s: State, s': State)
    requires Inv(a, s) && Refresh(s, s') && CountsExact(s')
    ensures Inv(a, s') && Abs(a, s') == Abs(a, s)
  {
    RefreshKeepsView(a, s, s');
    RefreshKeepsPhase(a, s, s');
    assert forall b :: Pinned(s', b) == Pinned(s, b);
  }

  lemma RefreshKeepsPhase(a: Area, s: State, s': State)
    requires Coherent(s) && PhaseOk(a, s) && Refresh(s, s')
    ensures PhaseOk(a, s')
  {
    forall b | Pinned(s, b)
      ensures b in s'.cache && s'.cache[b].data == s.cache[b].data
    {
    }
    if s.phase.Copying? || s.phase.Installing? {
      assert forall i :: 0 <= i < |s.lh| ==> Slot(s.lh, s.lh[i]) == i;
    }
  }

  lemma RefreshKeepsView(a: Area, s: State, s': State)
    requires Coherent(s) && Refresh(s, s') && WfImage(a, s.disk)
    ensures Abs(a, s') == Abs(a, s)
  {
    forall b | 0 <= b < |s.disk|
      ensures ViewAt(s', b) == ViewAt(s, b)
    {
    }
  }

  lemma SamePins(s: State, s': State)
    requires s'.lh == s.lh && s'.phase == s.phase
    ensures forall c :: Pinned(s', c) == Pinned(s, c)
  {
  }

  lemma BgetHitRefreshes(a: Area, s: State, s': State, p: Proc, b: int)
    requires Coherent(s) && DirtyOwned(a, s) && BgetHit(s, s', p, b)
    ensures Refresh(s, s')
  {
    hide Pinned;
  }

  lemma BgetHitCounts(s: State, s': State, p: Proc, b: int)
    requires CountsExact(s) && BgetHit(s, s', p, b)
    ensures CountsExact(s')
  {
    hide RefsTo, Pinned;
    RefsAdd(s.refs, p, b);
    SamePins(s, s');
  }

  /** An unreferenced buffer is neither pinned nor being modified, and nobody points at an uncached block. */
  lemma Unreferenced(s: State, v: int)
    requires CountsExact(s) && (v in s.cache ==> s.cache[v].refcnt == 0)
    ensures RefsTo(s.refs, v) == {} && (forall r :: r in s.refs ==> r.1 != v)
    ensures v in s.cache ==> !Pinned(s, v) && s.cache[v].owner == None
  {
    hide Pinned;
    assert forall r :: r in RefsTo(s.refs, v) <==> r in s.refs && r.1 == v;
  }

  lemma BgetMissRefreshes(a: Area, s: State, s': State, p: Proc, b: int, victim: Option<int>, junk: Block)
    requires CountsExact(s) && Coherent(s) && DirtyOwned(a, s) && BgetMiss(s, s', p, b, victim, junk)
    ensures Refresh(s, s')
  {
    hide Pinned, CountsExact;
    if victim.Some? {
      Unreferenced(s, victim.value);
    }
  }

  lemma BgetMissCounts(s: State, s': State, p: Proc, b: int, victim: Option<int>, junk: Block)
    requires CountsExact(s) && Coherent(s) && BgetMiss(s, s', p, b, victim, junk)
    ensures CountsExact(s')
  {
    assert !Pinned(s, b);
    hide Pinned, Coherent;
    Unreferenced(s, b);
    if victim.Some? {
      Unreferenced(s, victim.value);
    }
    assert (p, b) !in s.refs;
    NewCount(s, s', p, b);
  }

  /** A buffer that enters the cache with its first reference. */
  lemma NewCount(s: State, s': State, p: Proc, b: int)
    requires CountsExact(s) && RefsTo(s.refs, b) == {} && (p, b) !in s.refs && b !in s.cache && !Pinned(s, b)
    requires s'.refs == s.refs + {(p, b)} && s'.lh == s.lh && s'.phase == s.phase
    requires b in s'.cache && s'.cache[b].refcnt == 1 && s'.cache[b].owner == None
    requires forall c :: c in s'.cache && c != b ==> c in s.cache && s'.cache[c] == s.cache[c]
    requires forall r :: r in s.refs ==> r.1 in s'.cache
    ensures CountsExact(s')
  {
    RefsAdd(s.refs, p, b);
    SamePins(s, s');
    hide RefsTo, Pinned;
  }

  lemma LockBufRefreshes(a: Area, s: State, s': State, p: Proc, b: int)
    requires Coherent(s) && DirtyOwned(a, s) && LockBuf(s, s', p, b)
    ensures Refresh(s, s')
  {
    hide Pinned;
  }

  lemma ReadBufRefreshes(a: Area, s: State, s': State, p: Proc, b: int)
    requires Coherent(s) && DirtyOwned(a, s) && ReadBuf(s, s', p, b)
    ensures Refresh(s, s')
  {
    hide Pinned;
  }

  lemma UnlockBufRefreshes(a: Area, s: State, s': State, p: Proc, b: int)
    requires Coherent(s) && DirtyOwned(a, s) && UnlockBuf(s, s', p, b)
    ensures Refresh(s, s')
  {
    hide Pinned;
  }

  lemma LockBufCounts(s: State, s': State, p: Proc, b: int)
    requires CountsExact(s) && (LockBuf(s, s', p, b) || ReadBuf(s, s', p, b) || UnlockBuf(s, s', p, b))
    ensures CountsExact(s')
  {
    hide RefsTo, Pinned;
    SamePins(s, s');
  }

  lemma DropBufRefreshes(a: Area, s: State, s': State, p: Proc, b: int)
    requires Coherent(s) && DirtyOwned(a, s) && DropBuf(s, s', p, b)
    ensures Refresh(s, s')
  {
    hide Pinned;
  }

  lemma DropBufCounts(s: State, s': State, p: Proc, b: int)
    requires CountsExact(s) && DropBuf(s, s', p, b)
    ensures CountsExact(s')
  {
    hide RefsTo, Pinned;
    RefsRemove(s.refs, p, b);
    SamePins(s, s');
  }

  // The other steps.

  lemma NothingDirty(a: Area, s: State)
    requires DirtyOwned(a, s) && s.ops == map[]
    ensures s.dirty == {}
  {
    assert forall b :: b !in s.dirty;
  }

  /** Data changes leave the counts exact as long as references and pins are the same. */
  lemma CountsFrame(s: State, s': State)
    requires CountsExact(s) && s'.refs == s.refs && s'.cache.Keys == s.cache.Keys
    requires forall b :: b in s.cache ==> s'.cache[b].owner == s.cache[b].owner
    requires forall b :: b in s.cache ==>
      s'.cache[b].refcnt - s.cache[b].refcnt == (if Pinned(s', b) then 1 else 0) - (if Pinned(s, b) then 1 else 0)
    ensures CountsExact(s')
  {
  }

  lemma ViewFrame(a: Area, s: State, s': State)
    requires WfImage(a, s.disk) && WfImage(a, s'.disk) && |s'.disk| == |s.disk|
    requires !Recovering(s) && !Recovering(s')
    requires forall b :: Home(a, s.disk, b) ==> ViewAt(s', b) == ViewAt(s, b)
    ensures View(a, s') == View(a, s)
  {
    forall b | 0 <= b < |s.disk| && !InLog(a, b)
      ensures View(a, s')[b] == View(a, s)[b]
    {
      assert Home(a, s.disk, b);
    }
  }

  lemma BeginOpKeeps(a: Area, s: State, s': State, p: Proc)
    requires Inv(a, s) && BeginOp(s, s', p)
    ensures Inv(a, s') && StoreStep(Abs(a, s), Abs(a, s'))
  {
    CountsFrame(s, s');
    assert forall b :: Pinned(s', b) == Pinned(s, b);
    assert Coherent(s');
    assert DirtyOwned(a, s');
    BeginOpAbs(a, s, s', p);
  }

  lemma BeginOpAbs(a: Area, s: State, s': State, p: Proc)
    requires WfImage(a, s.disk) && BeginOp(s, s', p)
    ensures StoreStep(Abs(a, s), Abs(a, s'))
  {
    hide View, Recovered, WfImage, StoreStep;
    ViewFrame(a, s, s');
    var t, t' := Abs(a, s), Abs(a, s');
    assert t'.active == t.active + {p};
    StoreBegins(t, t', p);
  }

  lemma StoreBegins(t: Store, t': Store, p: Proc)
    requires StoreBegin(t, t', p)
    ensures StoreStep(t, t')
  {
  }

  lemma OpMeansRunning(a: Area, s: State, p: Proc)
    requires Inv(a, s) && p in s.ops
    ensures s.phase == Running && s.ops != map[] && WfImage(a, s.disk) && WfHead(a, s.disk, s.lh)
  {
    hide CountsExact, Coherent, DirtyOwned;
  }

  lemma ModifyKeeps(a: Area, s: State, s': State, p: Proc, b: int, data: Block)
    requires Inv(a, s) && Modify(a, s, s', p, b, data)
    ensures Inv(a, s') && StoreStep(Abs(a, s), Abs(a, s'))
  {
    hide CountsExact, Coherent, DirtyOwned, PhaseOk, WfImage, Idle, Abs, StoreStep;
    OpMeansRunning(a, s, p);
    ModifyBuffers(a, s, s', p, b, data);
    RunningPhase(a, s, s');
    ModifyAbs(a, s, s', p, b, data);
  }

  lemma ModifyBuffers(a: Area, s: State, s': State, p: Proc, b: int, data: Block)
    requires CountsExact(s) && Coherent(s) && DirtyOwned(a, s) && Modify(a, s, s', p, b, data)
    ensures CountsExact(s') && Coherent(s') && DirtyOwned(a, s')
  {
    SamePins(s, s');
    hide Pinned;
    assert CountsExact(s') by {
      hide Coherent, DirtyOwned;
      CountsFrame(s, s');
    }
    hide CountsExact;
    assert DirtyOwned(a, s') by {
      hide Coherent;
    }
  }

  /** While the log is running, nothing in the cache matters to PhaseOk. */
  lemma RunningPhase(a: Area, s: State, s': State)
    requires PhaseOk(a, s) && s.phase == s'.phase == Running && s'.disk == s.disk && s'.ops != map[]
    requires WfHead(a, s.disk, s'.lh)
    ensures PhaseOk(a, s')
  {
    hide WfImage, WfHead, Idle;
  }

  lemma ModifyAbs(a: Area, s: State, s': State, p: Proc, b: int, data: Block)
    requires WfImage(a, s.disk) && s.phase == Running && Modify(a, s, s', p, b, data)
    ensures StoreStep(Abs(a, s), Abs(a, s'))
  {
    hide Recovered, WfImage;
    assert View(a, s') == View(a, s)[b := data];
    var t, t' := Abs(a, s), Abs(a, s');
    assert StoreWrite(t, t', b, data);
    assert p in t.active;
  }

  lemma LogWriteKeeps(a: Area, s: State, s': State, p: Proc, b: int)
    requires Inv(a, s) && LogWrite(a, s, s', p, b)
    ensures Inv(a, s') && Abs(a, s') == Abs(a, s)
  {
    hide CountsExact, Coherent, DirtyOwned, PhaseOk, WfImage, Idle, Abs;
    OpMeansRunning(a, s, p);
    LogWritePins(a, s, s', p, b);
    LogWriteBuffers(a, s, s', p, b);
    LogWriteHead(a, s, s', p, b);
    RunningPhase(a, s, s');
    LogWriteAbs(a, s, s', p, b);
  }

  lemma LogWritePins(a: Area, s: State, s': State, p: Proc, b: int)
    requires s.phase == Running && LogWrite(a, s, s', p, b)
    ensures forall c :: Pinned(s', c) == (Pinned(s, c) || c == b)
    ensures Pinned(s, b) <==> b in s.lh
  {
  }

  lemma LogWriteBuffers(a: Area, s: State, s': State, p: Proc, b: int)
    requires CountsExact(s) && Coherent(s) && DirtyOwned(a, s) && LogWrite(a, s, s', p, b)
    requires forall c :: Pinned(s', c) == (Pinned(s, c) || c == b)
    requires Pinned(s, b) <==> b in s.lh
    ensures CountsExact(s') && Coherent(s') && DirtyOwned(a, s')
  {
    hide Pinned, TooBig;
    assert CountsExact(s') by {
      hide Coherent, DirtyOwned;
      CountsFrame(s, s');
    }
    hide CountsExact;
    assert DirtyOwned(a, s') by {
      hide Coherent;
    }
    hide DirtyOwned;
  }

  lemma LogWriteHead(a: Area, s: State, s': State, p: Proc, b: int)
    requires PhaseOk(a, s) && LogWrite(a, s, s', p, b)
    ensures WfHead(a, s.disk, s'.lh) && s'.ops != map[] && s'.phase == s.phase && s'.disk == s.disk
  {
    hide WfImage, Idle;
    assert p in s'.ops;
  }

  lemma LogWriteAbs(a: Area, s: State, s': State, p: Proc, b: int)
    requires WfImage(a, s.disk) && s.phase == Running && LogWrite(a, s, s', p, b)
    ensures Abs(a, s') == Abs(a, s)
  {
    hide Recovered, WfImage, View, TooBig;
    assert s'.ops.Keys == s.ops.Keys;
    ViewFrame(a, s, s');
  }

  lemma EndOpKeeps(a: Area, s: State, s': State, p: Proc)
    requires Inv(a, s) && EndOp(s, s', p)
    ensures Inv(a, s') && StoreStep(Abs(a, s), Abs(a, s'))
  {
    assert s.ops != map[] && s.phase == Running;
    assert (s.ops - {p}).Keys == s.ops.Keys - {p};
    assert forall c :: Pinned(s', c) == Pinned(s, c);
    CountsFrame(s, s');
    forall b | b in s.dirty
      ensures s.cache[b].owner.value in s.ops - {p}
    {
      assert !Holds(s, p, b);
    }
    ViewFrame(a, s, s');
    assert StoreEnd(Abs(a, s), Abs(a, s'), p);
  }

  lemma CopyToLogKeeps(a: Area, s: State, s': State)
    requires Inv(a, s) && CopyToLog(a, s, s')
    ensures Inv(a, s') && Abs(a, s') == Abs(a, s)
  {
    hide CountsExact, Coherent, DirtyOwned, Abs;
    CopyToLogTarget(a, s);
    LogAreaWrite(a, s.disk, a.start + 1 + s.phase.k, s.cache[s.lh[s.phase.k]].data);
    assert WfHead(a, s'.disk, s.lh);
    CopyToLogPhase(a, s, s');
    hide PhaseOk, WfHead;
    CopyToLogBuffers(a, s, s');
    CopyToLogAbs(a, s, s');
  }

  lemma CopyToLogTarget(a: Area, s: State)
    requires PhaseOk(a, s) && s.phase.Copying? && s.phase.k < |s.lh|
    ensures var to := a.start + 1 + s.phase.k; InLog(a, to) && to != a.start && to !in s.lh && to < |s.disk|
    ensures Idle(a, s.disk) && s.ops == map[]
  {
    var to := a.start + 1 + s.phase.k;
    assert InLog(a, to);
    forall i | 0 <= i < |s.lh|
      ensures s.lh[i] != to
    {
      assert Home(a, s.disk, s.lh[i]);
    }
  }

  lemma CopyToLogBuffers(a: Area, s: State, s': State)
    requires CountsExact(s) && Coherent(s) && DirtyOwned(a, s) && s.ops == map[] && CopyToLog(a, s, s')
    requires a.start + 1 + s.phase.k !in s.lh
    ensures CountsExact(s') && Coherent(s') && DirtyOwned(a, s')
  {
    NothingDirty(a, s);
    assert forall c :: Pinned(s', c) == Pinned(s, c) == (c in s.lh);
    hide Pinned, DirtyOwned;
    assert CountsExact(s') by {
      hide Coherent;
      CountsFrame(s, s');
    }
    hide CountsExact;
    assert Coherent(s');
    assert DirtyOwned(a, s') by {
      NoneOwned(a, s');
    }
  }

  lemma NoneOwned(a: Area, s: State)
    requires s.dirty == {}
    ensures DirtyOwned(a, s)
  {
  }

  lemma CopyToLogAbs(a: Area, s: State, s': State)
    requires WfImage(a, s.disk) && WfImage(a, s'.disk) && CopyToLog(a, s, s') && InLog(a, a.start + 1 + s.phase.k)
    requires Recovered(a, s'.disk) == Recovered(a, s.disk)
    ensures Abs(a, s') == Abs(a, s)
  {
    hide Recovered, WfImage, View;
    ViewFrame(a, s, s');
  }

  lemma CopyToLogPhase(a: Area, s: State, s': State)
    requires PhaseOk(a, s) && CopyToLog(a, s, s') && Idle(a, s'.disk) && WfHead(a, s'.disk, s.lh)
    ensures PhaseOk(a, s')
  {
    assert forall i :: 0 <= i < |s.lh| ==> Home(a, s.disk, s.lh[i]);
    assert InLog(a, a.start + 1 + s.phase.k);
  }

  /** A write to a data slot of an idle log does not change what recovery yields. */
  lemma LogAreaWrite(a: Area, d: Image, to: int, data: Block)
    requires Idle(a, d) && InLog(a, to) && to != a.start
    ensures Idle(a, d[to := data]) && Recovered(a, d[to := data]) == Recovered(a, d)
    ensures forall lh :: WfHead(a, d, lh) ==> WfHead(a, d[to := data], lh)
  {
    var d' := d[to := data];
    assert d'[a.start] == d[a.start];
    forall b | 0 <= b < |d| && !InLog(a, b)
      ensures Recovered(a, d')[b] == Recovered(a, d)[b]
    {
    }
  }

  /** The commit point: the header write makes durable exactly what the finished operations have written. */
  lemma CommitHeadKeeps(a: Area, s: State, s': State)
    requires Inv(a, s) && CommitHead(a, s, s')
    ensures Inv(a, s') && Abs(a, s') == Abs(a, s).(durable := Abs(a, s).volatile)
  {
    hide CountsExact, Coherent, DirtyOwned, Abs;
    NothingDirty(a, s);
    HeadWrite(a, s.disk, s'.disk, s.lh);
    CommitHeadPhase(a, s, s');
    CommitHeadAbs(a, s, s');
    hide PhaseOk;
    CommitHeadBuffers(a, s, s');
  }

  lemma CommitHeadBuffers(a: Area, s: State, s': State)
    requires CountsExact(s) && Coherent(s) && s.dirty == {} && CommitHead(a, s, s')
    ensures CountsExact(s') && Coherent(s') && DirtyOwned(a, s')
  {
    hide PutHead, WfBlock;
    assert forall c :: Pinned(s', c) == Pinned(s, c);
    hide Pinned;
    assert CountsExact(s') by {
      hide Coherent;
      CountsFrame(s, s');
    }
    hide CountsExact;
    NoneOwned(a, s');
    hide DirtyOwned;
  }

  lemma CommitHeadAbs(a: Area, s: State, s': State)
    requires Coherent(s) && PhaseOk(a, s) && s.dirty == {} && CommitHead(a, s, s') && WfImage(a, s'.disk)
    ensures Abs(a, s') == Abs(a, s).(durable := Abs(a, s).volatile)
  {
    assert InLog(a, a.start) && HeadOf(s'.disk[a.start]) == s.lh;
    ViewFrame(a, s, s');
    CommitHeadDurable(a, s, s'.disk);
    assert Recovered(a, s'.disk) == View(a, s);
  }

  lemma CommitHeadPhase(a: Area, s: State, s': State)
    requires PhaseOk(a, s) && CommitHead(a, s, s') && WfImage(a, s'.disk) && WfHead(a, s'.disk, s.lh)
    ensures PhaseOk(a, s')
  {
    assert InLog(a, a.start);
    assert forall i :: 0 <= i < |s.lh| ==> Home(a, s.disk, s.lh[i]);
  }

  lemma HeadWrite(a: Area, d: Image, d': Image, lh: seq<int>)
    requires WfImage(a, d) && WfHead(a, d, lh) && |d'| == |d| && d' == d[a.start := d'[a.start]]
    requires WfBlock(d'[a.start]) && d'[a.start].words[0] == |lh| && HeadOf(d'[a.start]) == lh
    ensures WfImage(a, d') && WfHead(a, d', lh)
  {
    assert forall b :: Home(a, d', b) == Home(a, d, b);
  }

  lemma CommitHeadDurable(a: Area, s: State, d': Image)
    requires Coherent(s) && s.dirty == {} && s.phase.Copying? && a.start + |s.lh| < |s.disk| == |d'|
    requires forall i :: 0 <= i < |s.lh| ==> s.lh[i] in s.cache && s.disk[a.start + 1 + i] == s.cache[s.lh[i]].data
    requires forall b :: 0 <= b < |d'| && b != a.start ==> d'[b] == s.disk[b]
    requires InLog(a, a.start)
    ensures forall b :: 0 <= b < |d'| && !InLog(a, b) ==> Replayed(a, d', s.lh)[b] == ViewAt(s, b)
  {
    forall b | 0 <= b < |s.disk| && !InLog(a, b)
      ensures Replayed(a, d', s.lh)[b] == ViewAt(s, b)
    {
      if b in s.lh {
        assert Pinned(s, b);
      } else {
        assert !Pinned(s, b);
      }
    }
  }

  lemma InstallKeeps(a: Area, s: State, s': State)
    requires Inv(a, s) && Install(a, s, s')
    ensures Inv(a, s') && Abs(a, s') == Abs(a, s)
  {
    hide CountsExact, Coherent, DirtyOwned, Abs, Recovered;
    NothingDirty(a, s);
    InstallReadsSlot(a, s);
    InstallBuffers(s, s', s.lh[s.phase.k]);
    NoneOwned(a, s');
    InstallAbs(a, s, s');
    InstallWrite(a, s.disk, s.lh, s.phase.k);
    InstallPhase(a, s, s');
  }

  lemma InstallAbs(a: Area, s: State, s': State)
    requires PhaseOk(a, s) && Install(a, s, s')
    requires s.cache[a.start + 1 + s.phase.k].data == s.disk[a.start + 1 + s.phase.k]
    ensures WfImage(a, s'.disk) && Abs(a, s') == Abs(a, s)
  {
    InstallWrite(a, s.disk, s.lh, s.phase.k);
    if !s.phase.recovering {
      InstallShowsSame(a, s, s');
    }
    hide PhaseOk;
    InstallAbsSame(a, s, s');
  }

  lemma InstallAbsSame(a: Area, s: State, s': State)
    requires WfImage(a, s.disk) && WfImage(a, s'.disk) && Install(a, s, s')
    requires Recovered(a, s'.disk) == Recovered(a, s.disk)
    requires !s.phase.recovering ==> forall b :: Home(a, s.disk, b) ==> ViewAt(s', b) == ViewAt(s, b)
    ensures Abs(a, s') == Abs(a, s)
  {
    hide Recovered, WfImage;
    if !s.phase.recovering {
      hide View;
      ViewFrame(a, s, s');
    }
  }

  lemma InstallBuffers(s: State, s': State, to: int)
    requires CountsExact(s) && Coherent(s) && s.dirty == {} && NoRepeats(s.lh)
    requires s.phase.Installing? && s.phase.k < |s.lh| && to == s.lh[s.phase.k]
    requires 0 <= to < |s.disk| && to in s.cache && s.cache[to].valid && to in s'.cache && |s'.disk| == |s.disk|
    requires s' == s.(
               cache := s.cache[to := s'.cache[to]],
               disk := s.disk[to := s'.disk[to]],
               phase := s.phase.(k := s.phase.k + 1))
    requires s'.cache[to] == s.cache[to].(
               data := s'.disk[to],
               refcnt := s.cache[to].refcnt - if s.phase.recovering then 0 else 1)
    ensures CountsExact(s') && Coherent(s')
  {
    InstallUnpins(s, s', to);
    CountsFrame(s, s');
    InstallCoherent(s, s', to);
  }

  lemma InstallReadsSlot(a: Area, s: State)
    requires Coherent(s) && PhaseOk(a, s) && s.dirty == {} && s.phase.Installing? && s.phase.k < |s.lh|
    requires var from := a.start + 1 + s.phase.k; from in s.cache && s.cache[from].valid
    ensures s.cache[a.start + 1 + s.phase.k].data == s.disk[a.start + 1 + s.phase.k]
    ensures Home(a, s.disk, s.lh[s.phase.k])
  {
    var from := a.start + 1 + s.phase.k;
    assert InLog(a, from);
    assert !Pinned(s, from);
  }

  lemma InstallUnpins(s: State, s': State, to: int)
    requires s.phase.Installing? && s.phase.k < |s.lh| && to == s.lh[s.phase.k] && NoRepeats(s.lh)
    requires s'.lh == s.lh && s'.phase == s.phase.(k := s.phase.k + 1)
    ensures forall c :: Pinned(s', c) == (Pinned(s, c) && c != to)
    ensures !s.phase.recovering ==> Pinned(s, to)
  {
  }

  lemma InstallCoherent(s: State, s': State, to: int)
    requires Coherent(s) && s.dirty == {} && 0 <= to < |s.disk| && to in s.cache
    requires forall c :: Pinned(s', c) == (Pinned(s, c) && c != to)
    requires s'.dirty == {} && |s'.disk| == |s.disk| && s'.disk == s.disk[to := s'.disk[to]]
    requires to in s'.cache && s'.cache == s.cache[to := s'.cache[to]] && s'.cache[to].valid && s'.cache[to].data == s'.disk[to]
    ensures Coherent(s')
  {
  }

  /** In a commit the home block already shows, in the cache, what is installed. */
  lemma InstallShowsSame(a: Area, s: State, s': State)
    requires PhaseOk(a, s) && Install(a, s, s') && !s.phase.recovering
    requires s.cache[a.start + 1 + s.phase.k].data == s.disk[a.start + 1 + s.phase.k]
    ensures forall b :: Home(a, s.disk, b) ==> ViewAt(s', b) == ViewAt(s, b)
  {
  }

  /** Installing one slot keeps the log and what recovery yields. */
  lemma InstallWrite(a: Area, d: Image, lh: seq<int>, k: nat)
    requires WfImage(a, d) && lh == HeadOf(d[a.start]) && k < |lh|
    ensures Home(a, d, lh[k])
    ensures var d' := d[lh[k] := d[a.start + 1 + k]];
            WfImage(a, d') && d'[a.start] == d[a.start] && Recovered(a, d') == Recovered(a, d)
  {
    var d' := d[lh[k] := d[a.start + 1 + k]];
    assert Home(a, d, lh[k]) && InLog(a, a.start);
    assert forall b :: Home(a, d', b) == Home(a, d, b);
    assert d'[a.start] == d[a.start];
    ReplayOne(a, d, lh, k);
  }

  lemma ReplayOne(a: Area, d: Image, lh: seq<int>, k: nat)
    requires a.start + |lh| < |d| && |lh| < a.size && NoRepeats(lh) && k < |lh| && Home(a, d, lh[k])
    ensures Replayed(a, d[lh[k] := d[a.start + 1 + k]], lh) == Replayed(a, d, lh)
  {
    var d' := d[lh[k] := d[a.start + 1 + k]];
    forall b | 0 <= b < |d| && !InLog(a, b)
      ensures Replayed(a, d', lh)[b] == Replayed(a, d, lh)[b]
    {
      if b in lh {
        assert InLog(a, a.start + 1 + Slot(lh, b));
      }
    }
  }

  lemma InstallPhase(a: Area, s: State, s': State)
    requires PhaseOk(a, s) && Install(a, s, s') && WfImage(a, s'.disk) && HeadOf(s'.disk[a.start]) == s.lh
    requires s.cache[a.start + 1 + s.phase.k].data == s.disk[a.start + 1 + s.phase.k]
    ensures PhaseOk(a, s')
  {
    hide InstalledTo, CachedFrom;
    InstallDisk(a, s.disk, s.lh, s.phase.k);
    if !s.phase.recovering {
      InstallCache(a, s, s');
    }
  }

  /** Home blocks are outside the log area and different from each other. */
  lemma InstallApart(a: Area, d: Image, lh: seq<int>, i: nat, k: nat)
    requires WfHead(a, d, lh) && i < |lh| && k < |lh|
    ensures lh[k] != a.start + 1 + i && (i != k ==> lh[i] != lh[k])
  {
    assert Home(a, d, lh[k]) && InLog(a, a.start + 1 + i);
    assert Slot(lh, lh[i]) == i && Slot(lh, lh[k]) == k;
  }

  lemma InstallDisk(a: Area, d: Image, lh: seq<int>, k: nat)
    requires WfHead(a, d, lh) && k < |lh| && a.start + |lh| < |d| && 0 <= lh[k] < |d| && InstalledTo(a, d, lh, k)
    ensures InstalledTo(a, d[lh[k] := d[a.start + 1 + k]], lh, k + 1)
  {
    forall i | 0 <= i < k + 1
      ensures lh[k] != a.start + 1 + i && (i != k ==> lh[i] != lh[k])
    {
      InstallApart(a, d, lh, i, k);
    }
    InstallApart(a, d, lh, k, k);
    hide WfHead;
  }

  lemma InstallCache(a: Area, s: State, s': State)
    requires Install(a, s, s') && WfHead(a, s.disk, s.lh) && a.start + |s.lh| < |s.disk| && CachedFrom(a, s, s.phase.k)
    ensures CachedFrom(a, s', s.phase.k + 1)
  {
    forall i | s.phase.k < i < |s.lh|
      ensures s.lh[i] in s'.cache && s'.cache[s.lh[i]].data == s'.disk[a.start + 1 + i]
    {
      InstallApart(a, s.disk, s.lh, i, s.phase.k);
    }
  }

  lemma ClearHeadKeeps(a: Area, s: State, s': State)
    requires Inv(a, s) && ClearHead(a, s, s')
    ensures Inv(a, s') && Abs(a, s') == Abs(a, s)
  {
    hide CountsExact, Coherent, DirtyOwned, Abs;
    NothingDirty(a, s);
    HeadWrite(a, s.disk, s'.disk, []);
    assert PhaseOk(a, s');
    ClearHeadReplays(a, s, s'.disk);
    hide PhaseOk;
    ClearHeadBuffers(a, s, s');
    ClearHeadAbs(a, s, s');
  }

  lemma ClearHeadBuffers(a: Area, s: State, s': State)
    requires CountsExact(s) && Coherent(s) && s.dirty == {} && ClearHead(a, s, s')
    ensures CountsExact(s') && Coherent(s') && DirtyOwned(a, s')
    ensures forall c :: !Pinned(s', c) && !Pinned(s, c)
  {
    hide PutHead, WfBlock;
    assert forall c :: !Pinned(s', c) && !Pinned(s, c);
    hide Pinned;
    assert CountsExact(s') by {
      hide Coherent;
      CountsFrame(s, s');
    }
    hide CountsExact;
    NoneOwned(a, s');
    hide DirtyOwned;
  }

  lemma ClearHeadAbs(a: Area, s: State, s': State)
    requires WfImage(a, s.disk) && WfImage(a, s'.disk) && Coherent(s) && Coherent(s') && s.dirty == {}
    requires ClearHead(a, s, s') && forall c :: !Pinned(s', c) && !Pinned(s, c)
    requires Recovered(a, s'.disk) == Recovered(a, s.disk) == HomeBlocks(a, s.disk) == HomeBlocks(a, s'.disk)
    ensures Abs(a, s') == Abs(a, s)
  {
    hide Recovered, WfImage, Coherent, HomeBlocks, Pinned;
    CleanView(a, s');
    if !s.phase.recovering {
      CleanView(a, s);
    }
  }

  /** With nothing pinned or modified, the cache shows the disk. */
  lemma CleanView(a: Area, s: State)
    requires Coherent(s) && s.dirty == {} && WfImage(a, s.disk) && !Recovering(s) && forall c :: !Pinned(s, c)
    ensures View(a, s) == HomeBlocks(a, s.disk)
  {
  }

  /** With every slot installed, forgetting the header changes nothing. */
  lemma ClearHeadReplays(a: Area, s: State, d: Image)
    requires PhaseOk(a, s) && s.phase.Installing? && s.phase.k == |s.lh| && |d| == |s.disk| && Idle(a, d)
    requires forall b :: 0 <= b < |d| && b != a.start ==> d[b] == s.disk[b]
    ensures Recovered(a, d) == Recovered(a, s.disk) == HomeBlocks(a, s.disk) == HomeBlocks(a, d)
  {
    assert InLog(a, a.start);
    assert forall i :: 0 <= i < |s.lh| ==> Home(a, s.disk, s.lh[i]);
    InstalledReplays(a, s.disk, d, s.lh);
  }

  lemma InstalledReplays(a: Area, d: Image, d': Image, lh: seq<int>)
    requires a.start + |lh| < |d| == |d'| && InLog(a, a.start)
    requires forall i :: 0 <= i < |lh| ==> 0 <= lh[i] < |d| && d[lh[i]] == d[a.start + 1 + i]
    requires forall b :: 0 <= b < |d| && b != a.start ==> d'[b] == d[b]
    ensures Replayed(a, d', []) == Replayed(a, d, lh) == HomeBlocks(a, d) == HomeBlocks(a, d')
  {
  }

  lemma ReadHeadKeeps(a: Area, s: State, s': State)
    requires Inv(a, s) && ReadHead(a, s, s')
    ensures Inv(a, s') && Abs(a, s') == Abs(a, s)
  {
    assert s.cache[a.start].data == s.disk[a.start];
    assert forall c :: !Pinned(s', c) && !Pinned(s, c);
  }

  lemma FinishCommitKeeps(a: Area, s: State, s': State)
    requires Inv(a, s) && FinishCommit(s, s')
    ensures Inv(a, s') && Abs(a, s') == Abs(a, s)
  {
    assert View(a, s') == View(a, s);
  }

  lemma CrashKeeps(a: Area, s: State, s': State, worker: Proc)
    requires Inv(a, s) && Crash(s, s', worker)
    ensures Inv(a, s') && Abs(a, s') == Store(Abs(a, s).durable, Abs(a, s).durable, {})
  {
  }

  predicate IsBufferStep(step: Step) {
    step.BgetHitStep? || step.BgetMissStep? || step.LockBufStep? || step.ReadBufStep? || step.UnlockBufStep? || step.DropBufStep?
  }

  predicate IsOperationStep(step: Step) {
    step.BeginOpStep? || step.ModifyStep? || step.LogWriteStep? || step.EndOpStep?
  }

  lemma BufferStepRefreshes(a: Area, s: State, s': State, step: Step)
    requires Inv(a, s) && Does(a, s, s', step) && IsBufferStep(step)
    ensures Refresh(s, s')
  {
    hide CountsExact, Coherent, DirtyOwned, PhaseOk, Refresh;
    match step {
      case BgetHitStep(p, b) => BgetHitRefreshes(a, s, s', p, b);
      case BgetMissStep(p, b, victim, junk) => BgetMissRefreshes(a, s, s', p, b, victim, junk);
      case DropBufStep(p, b) => DropBufRefreshes(a, s, s', p, b);
      case LockBufStep(p, b) => LockBufRefreshes(a, s, s', p, b);
      case ReadBufStep(p, b) => ReadBufRefreshes(a, s, s', p, b);
      case UnlockBufStep(p, b) => UnlockBufRefreshes(a, s, s', p, b);
    }
  }

  lemma BufferStepCounts(a: Area, s: State, s': State, step: Step)
    requires Inv(a, s) && Does(a, s, s', step) && IsBufferStep(step)
    ensures CountsExact(s')
  {
    hide CountsExact, Coherent, DirtyOwned, PhaseOk;
    match step {
      case BgetHitStep(p, b) => BgetHitCounts(s, s', p, b);
      case BgetMissStep(p, b, victim, junk) => BgetMissCounts(s, s', p, b, victim, junk);
      case DropBufStep(p, b) => DropBufCounts(s, s', p, b);
      case LockBufStep(p, b) => LockBufCounts(s, s', p, b);
      case ReadBufStep(p, b) => LockBufCounts(s, s', p, b);
      case UnlockBufStep(p, b) => LockBufCounts(s, s', p, b);
    }
  }

  lemma BufferStepKeeps(a: Area, s: State, s': State, step: Step)
    requires Inv(a, s) && Does(a, s, s', step)
    requires IsBufferStep(step)
    ensures Inv(a, s') && Abs(a, s') == Abs(a, s)
  {
    hide Inv, Does, Refresh, CountsExact;
    BufferStepRefreshes(a, s, s', step);
    BufferStepCounts(a, s, s', step);
    RefreshKeeps(a, s, s');
  }

  lemma OperationStepKeeps(a: Area, s: State, s': State, step: Step)
    requires Inv(a, s) && Does(a, s, s', step)
    requires IsOperationStep(step)
    ensures Inv(a, s') && StoreStep(Abs(a, s), Abs(a, s'))
  {
    match step {
      case BeginOpStep(p) => BeginOpKeeps(a, s, s', p);
      case ModifyStep(p, b, data) => ModifyKeeps(a, s, s', p, b, data);
      case LogWriteStep(p, b) => LogWriteKeeps(a, s, s', p, b);
      case EndOpStep(p) => EndOpKeeps(a, s, s', p);
    }
  }

  lemma CommitStepKeeps(a: Area, s: State, s': State, step: Step)
    requires Inv(a, s) && Does(a, s, s', step)
    requires step.CopyToLogStep? || step.CommitHeadStep? || step.InstallStep? || step.ClearHeadStep? || step.FinishCommitStep?
    ensures Inv(a, s') && StoreStep(Abs(a, s), Abs(a, s'))
  {
    match step {
      case CopyToLogStep => CopyToLogKeeps(a, s, s');
      case CommitHeadStep => CommitHeadKeeps(a, s, s');
      case InstallStep => InstallKeeps(a, s, s');
      case ClearHeadStep => ClearHeadKeeps(a, s, s');
      case FinishCommitStep => FinishCommitKeeps(a, s, s');
    }
  }

  /** Every step of the system is a step of the atomic store. */
  lemma NextRefines(a: Area, s: State, s': State)
    requires Inv(a, s) && Next(a, s, s')
    ensures Inv(a, s') && StoreStep(Abs(a, s), Abs(a, s'))
  {
    var step :| Does(a, s, s', step);
    if IsOperationStep(step) {
      OperationStepKeeps(a, s, s', step);
    } else if step.CrashStep? {
      CrashKeeps(a, s, s', step.p);
    } else if step.ReadHeadStep? {
      ReadHeadKeeps(a, s, s');
    } else if step.CopyToLogStep? || step.CommitHeadStep? || step.InstallStep? || step.ClearHeadStep? || step.FinishCommitStep? {
      CommitStepKeeps(a, s, s', step);
    } else {
      BufferStepKeeps(a, s, s', step);
    }
  }

  // Whole runs.

  ghost predicate IsRun(a: Area, run: seq<State>) {
    && |run| > 0
    && Init(a, run[0])
    && forall i :: 0 <= i < |run| - 1 ==> Next(a, run[i], run[i + 1])
  }

  lemma {:induction false} RunInv(a: Area, run: seq<State>, i: nat)
    requires IsRun(a, run) && i < |run|
    ensures Inv(a, run[i])
  {
    if i > 0 {
      hide Next, PhaseOk;
      RunInv(a, run, i - 1);
      assert Next(a, run[i - 1], run[i]);
      NextRefines(a, run[i - 1], run[i]);
    }
  }

  /** Seen through Abs, a run of the log is a run of the atomic store. */
  lemma RunRefinesStore(a: Area, run: seq<State>, i: nat)
    requires IsRun(a, run) && i < |run|
    ensures Inv(a, run[i])
    ensures i == 0 ==> Abs(a, run[0]).durable == Abs(a, run[0]).volatile && Abs(a, run[0]).active == {}
    ensures i + 1 < |run| ==> Inv(a, run[i + 1]) && StoreStep(Abs(a, run[i]), Abs(a, run[i + 1]))
  {
    RunInv(a, run, i);
    if i + 1 < |run| {
      assert Next(a, run[i], run[i + 1]);
      NextRefines(a, run[i], run[i + 1]);
    }
  }

  /** In the atomic store, the durable contents are always those of an earlier moment with no operation in progress. */
  lemma {:induction false} DurableIsWholeGroups(ts: seq<Store>, i: nat) returns (j: nat)
    requires |ts| > 0 && ts[0].durable == ts[0].volatile && ts[0].active == {}
    requires forall m :: 0 <= m < |ts| - 1 ==> StoreStep(ts[m], ts[m + 1])
    requires i < |ts|
    ensures j <= i && ts[j].active == {} && ts[i].durable == ts[j].volatile
  {
    if i == 0 {
      return 0;
    }
    j := DurableIsWholeGroups(ts, i - 1);
    assert StoreStep(ts[i - 1], ts[i]);
    if ts[i].durable != ts[i - 1].durable {
      return i - 1;
    }
  }

  // Durability.

  /** No operation is in progress and no finished one waits for its blocks to be committed. */
  ghost predicate Settled(s: State) {
    s.ops == map[] && !s.phase.Copying?
  }

  /** Once the header of their group is on the disk, finished operations survive a power failure: all that is seen does. */
  lemma SettledIsDurable(a: Area, s: State)
    requires Inv(a, s) && Settled(s)
    ensures WfImage(a, s.disk) && Recovered(a, s.disk) == View(a, s)
  {
    hide CountsExact, Coherent, DirtyOwned;
    NothingDirty(a, s);
    if !Recovering(s) {
      if s.phase.Installing? {
        InstallingIsDurable(a, s);
      } else {
        assert forall c :: !Pinned(s, c);
        CleanView(a, s);
        assert HeadOf(s.disk[a.start]) == [];
        IdleReplays(a, s.disk);
      }
    }
  }

  lemma IdleReplays(a: Area, d: Image)
    requires Idle(a, d) && HeadOf(d[a.start]) == []
    ensures Recovered(a, d) == HomeBlocks(a, d)
  {
  }

  lemma InstallingIsDurable(a: Area, s: State)
    requires Coherent(s) && PhaseOk(a, s) && s.dirty == {} && s.phase.Installing? && !s.phase.recovering
    ensures Recovered(a, s.disk) == View(a, s)
  {
    forall b | 0 <= b < |s.disk| && !InLog(a, b)
      ensures Replayed(a, s.disk, s.lh)[b] == ViewAt(s, b)
    {
      InstallingShows(a, s, b);
    }
  }

  lemma InstallingShows(a: Area, s: State, b: int)
    requires Coherent(s) && s.dirty == {} && s.phase.Installing? && !s.phase.recovering
    requires 0 <= b < |s.disk| && !InLog(a, b) && a.start + |s.lh| < |s.disk| && s.phase.k <= |s.lh|
    requires InstalledTo(a, s.disk, s.lh, s.phase.k) && CachedFrom(a, s, s.phase.k)
    ensures Replayed(a, s.disk, s.lh)[b] == ViewAt(s, b)
  {
    if b in s.lh {
      var i := Slot(s.lh, b);
      assert s.lh[i] == b;
      assert Pinned(s, b) <==> i >= s.phase.k;
    } else {
      assert !Pinned(s, b);
    }
  }

  lemma OperationStepDisk(a: Area, s: State, s': State, step: Step)
    requires Does(a, s, s', step) && IsOperationStep(step)
    ensures s'.disk == s.disk
  {
    match step {
      case BeginOpStep(_) =>
      case ModifyStep(_, _, _) =>
      case LogWriteStep(_, _) =>
      case EndOpStep(_) =>
    }
  }

  lemma CommitStepSettles(a: Area, s: State, s': State, step: Step)
    requires (s.phase != Running ==> s.ops == map[]) && Does(a, s, s', step)
    requires !IsBufferStep(step) && !IsOperationStep(step) && !step.CopyToLogStep?
    ensures Settled(s')
  {
    hide PutHead, WfBlock;
    match step {
      case CommitHeadStep =>
      case InstallStep =>
      case ClearHeadStep =>
      case FinishCommitStep =>
      case CrashStep(_) =>
      case ReadHeadStep =>
    }
  }

  lemma CopyToLogDurable(a: Area, s: State, s': State, step: Step)
    requires PhaseOk(a, s) && Does(a, s, s', step) && step.CopyToLogStep?
    ensures WfImage(a, s'.disk) && Recovered(a, s'.disk) == Recovered(a, s.disk)
  {
    CopyToLogTarget(a, s);
    LogAreaWrite(a, s.disk, a.start + 1 + s.phase.k, s.cache[s.lh[s.phase.k]].data);
  }

  /** A step that does not end in a settled state leaves what recovery yields as it was. */
  lemma DurableStep(a: Area, s: State, s': State)
    requires Inv(a, s) && Next(a, s, s')
    ensures WfImage(a, s.disk) && WfImage(a, s'.disk)
    ensures Settled(s') || Recovered(a, s'.disk) == Recovered(a, s.disk)
  {
    hide CountsExact, Coherent, DirtyOwned, Abs, StoreStep, Recovered, WfImage, WfHead, Idle, Does;
    NextRefines(a, s, s');
    var step :| Does(a, s, s', step);
    if IsBufferStep(step) {
      BufferStepRefreshes(a, s, s', step);
    } else if IsOperationStep(step) {
      OperationStepDisk(a, s, s', step);
    } else if step.CopyToLogStep? {
      CopyToLogDurable(a, s, s', step);
    } else {
      CommitStepSettles(a, s, s', step);
    }
  }

  /**
   At every point of every run, what recovery would yield is what the file system showed at the last moment when no
   operation was in progress or waiting to be committed: all the commit groups up to then, whole, and nothing since.
   */
  lemma {:induction false} RecoveredIsWholeGroups(a: Area, run: seq<State>, i: nat) returns (j: nat)
    requires IsRun(a, run) && i < |run|
    ensures j <= i && Settled(run[j]) && forall m :: j < m <= i ==> !Settled(run[m])
    ensures WfImage(a, run[i].disk) && WfImage(a, run[j].disk)
    ensures Recovered(a, run[i].disk) == View(a, run[j])
  {
    hide Inv, Next, Recovered, View;
    RunInv(a, run, i);
    if Settled(run[i]) {
      SettledIsDurable(a, run[i]);
      return i;
    }
    j := RecoveredIsWholeGroups(a, run, i - 1);
    RunInv(a, run, i - 1);
    assert Next(a, run[i - 1], run[i - 1 + 1]);
    DurableStep(a, run[i - 1], run[i]);
  }

  /** end_op's panic("log.committing") is unreachable: while committing, no operation is in progress. */
  lemma CommittingMeansNoOps(a: Area, run: seq<State>, i: nat)
    requires IsRun(a, run) && i < |run| && run[i].phase != Running
    ensures run[i].ops == map[]
  {
    RunInv(a, run, i);
  }

  /** A block in the header is in the cache until install_trans unpins it: bget has not recycled its buffer. */
  lemma PinnedStaysCached(a: Area, run: seq<State>, i: nat, b: int)
    requires IsRun(a, run) && i < |run| && Pinned(run[i], b)
    ensures b in run[i].cache && run[i].cache[b].valid && run[i].cache[b].refcnt >= 1
  {
    RunInv(a, run, i);
  }

  /** A buffer that nobody has locked and the log has not pinned holds what is on the disk, so recycling it loses nothing. */
  lemma CleanBufferIsDisk(a: Area, run: seq<State>, i: nat, b: int)
    requires IsRun(a, run) && i < |run|
    requires var s := run[i]; b in s.cache && s.cache[b].valid && s.cache[b].owner == None && !Pinned(s, b)
    ensures 0 <= b < |run[i].disk| && run[i].cache[b].data == run[i].disk[b]
  {
    RunInv(a, run, i);
  }

  // Log space.

  /** What the operations in progress may still add to the header, if each adds at most cap blocks. */
  ghost function Reserved(ops: map<Proc, nat>, cap: nat): int
    decreases |ops|
  {
    if ops == map[] then 0 else
      var p :| p in ops;
      cap - ops[p] + Reserved(ops - {p}, cap)
  }

  lemma {:induction false} ReservedSplit(ops: map<Proc, nat>, cap: nat, p: Proc)
    requires p in ops
    ensures Reserved(ops, cap) == cap - ops[p] + Reserved(ops - {p}, cap)
    decreases |ops|
  {
    var q :| q in ops && Reserved(ops, cap) == cap - ops[q] + Reserved(ops - {q}, cap);
    if p != q {
      ReservedSplit(ops - {q}, cap, p);
      ReservedSplit(ops - {p}, cap, q);
      assert ops - {q} - {p} == ops - {p} - {q};
    }
  }

  lemma MulSucc(m: nat, n: nat)
    ensures m * (n + 1) == m * n + m
  {
  }

  lemma {:induction false} ReservedBound(ops: map<Proc, nat>, cap: nat)
    requires forall p :: p in ops ==> ops[p] <= cap
    ensures 0 <= Reserved(ops, cap) <= cap * |ops|
    decreases |ops|
  {
    if ops != map[] {
      var p :| p in ops;
      var rest := ops - {p};
      ReservedSplit(ops, cap, p);
      ReservedBound(rest, cap);
      assert rest.Keys == ops.Keys - {p};
      MulSucc(cap, |rest|);
    }
  }

  lemma ReservedBegin(ops: map<Proc, nat>, cap: nat, p: Proc)
    requires p !in ops
    ensures Reserved(ops[p := 0], cap) == cap + Reserved(ops, cap)
  {
    ReservedSplit(ops[p := 0], cap, p);
    assert ops[p := 0] - {p} == ops;
  }

  lemma ReservedAdd(ops: map<Proc, nat>, cap: nat, p: Proc)
    requires p in ops
    ensures Reserved(ops[p := ops[p] + 1], cap) == Reserved(ops, cap) - 1
  {
    ReservedSplit(ops, cap, p);
    ReservedSplit(ops[p := ops[p] + 1], cap, p);
    assert ops[p := ops[p] + 1] - {p} == ops - {p};
  }

  // How one step may change the header length and the operations, all that log space depends on.

  ghost predicate SpaceSame(s: State, s': State) {
    |s'.lh| == |s.lh| && s'.ops == s.ops
  }

  ghost predicate SpaceReset(s: State, s': State) {
    s'.ops == map[] && |s'.lh| <= LOGSIZE
  }

  ghost predicate SpaceBegin(s: State, s': State, p: Proc) {
    && |s'.lh| == |s.lh|
    && p !in s.ops
    && s'.ops == s.ops[p := 0]
    && (s.ops == map[] ==> s.lh == [])
    && |s.lh| + (|s.ops| + 1) * MAXOPBLOCKS <= LOGSIZE
  }

  ghost predicate SpaceAdd(s: State, s': State, p: Proc) {
    |s'.lh| == |s.lh| + 1 && p in s.ops && s'.ops == s.ops[p := s.ops[p] + 1]
  }

  ghost predicate SpaceEnd(s: State, s': State, p: Proc) {
    |s'.lh| == |s.lh| && p in s.ops && s'.ops == s.ops - {p}
  }

  ghost predicate SpaceStep(s: State, s': State) {
    || SpaceSame(s, s')
    || SpaceReset(s, s')
    || (exists p :: SpaceBegin(s, s', p))
    || (exists p :: SpaceAdd(s, s', p))
    || (exists p :: SpaceEnd(s, s', p))
  }

  lemma NextIsSpaceStep(a: Area, s: State, s': State, step: Step)
    requires (s.phase != Running ==> s.ops == map[]) && (s.ops == map[] && s.phase == Running ==> s.lh == [])
    requires Does(a, s, s', step)
    ensures SpaceStep(s, s')
  {
    if IsBufferStep(step) {
      BufferStepSpace(a, s, s', step);
    } else if IsOperationStep(step) {
      OperationStepSpace(a, s, s', step);
    } else {
      CommitStepSpace(a, s, s', step);
    }
  }

  lemma BufferStepSpace(a: Area, s: State, s': State, step: Step)
    requires Does(a, s, s', step) && IsBufferStep(step)
    ensures SpaceStep(s, s')
  {
    assert SpaceSame(s, s');
  }

  lemma OperationStepSpace(a: Area, s: State, s': State, step: Step)
    requires (s.phase != Running ==> s.ops == map[]) && (s.ops == map[] && s.phase == Running ==> s.lh == [])
    requires Does(a, s, s', step) && IsOperationStep(step)
    ensures SpaceStep(s, s')
  {
    match step {
      case BeginOpStep(p) => assert SpaceBegin(s, s', p);
      case ModifyStep(_, _, _) => assert SpaceSame(s, s');
      case LogWriteStep(p, b) => assert SpaceSame(s, s') || SpaceAdd(s, s', p);
      case EndOpStep(p) => assert SpaceEnd(s, s', p);
    }
  }

  lemma CommitStepSpace(a: Area, s: State, s': State, step: Step)
    requires (s.phase != Running ==> s.ops == map[]) && Does(a, s, s', step)
    requires !IsBufferStep(step) && !IsOperationStep(step)
    ensures SpaceStep(s, s')
  {
    match step {
      case ClearHeadStep => assert SpaceReset(s, s');
      case CrashStep(_) => assert SpaceReset(s, s');
      case ReadHeadStep => assert SpaceReset(s, s');
      case CopyToLogStep => assert SpaceSame(s, s');
      case CommitHeadStep => assert SpaceSame(s, s');
      case InstallStep => assert SpaceSame(s, s');
      case FinishCommitStep => assert SpaceSame(s, s');
    }
  }

  lemma RunSpaceStep(a: Area, run: seq<State>, i: nat)
    requires IsRun(a, run) && i + 1 < |run|
    ensures SpaceStep(run[i], run[i + 1])
  {
    hide CountsExact, Coherent, DirtyOwned, Does, Init;
    RunInv(a, run, i);
    assert Next(a, run[i], run[i + 1]);
    var step :| Does(a, run[i], run[i + 1], step);
    NextIsSpaceStep(a, run[i], run[i + 1], step);
  }

  /** So far each operation in progress has added at most cap blocks to the header. */
  ghost predicate OpsAtMost(s: State, cap: nat) {
    forall p :: p in s.ops ==> s.ops[p] <= cap
  }

  ghost predicate AllAtMost(run: seq<State>, cap: nat) {
    forall m :: 0 <= m < |run| ==> OpsAtMost(run[m], cap)
  }

  lemma RunStarts(a: Area, run: seq<State>)
    requires IsRun(a, run)
    ensures run[0].lh == [] && run[0].ops == map[]
  {
    hide Next;
  }

  lemma ReservationStep(s: State, s': State)
    requires SpaceStep(s, s') && OpsAtMost(s, MAXOPBLOCKS) && |s.lh| + Reserved(s.ops, MAXOPBLOCKS) <= LOGSIZE
    ensures |s'.lh| + Reserved(s'.ops, MAXOPBLOCKS) <= LOGSIZE
  {
    ReservedBound(s.ops, MAXOPBLOCKS);
    if p :| SpaceBegin(s, s', p) {
      ReservedBegin(s.ops, MAXOPBLOCKS, p);
    } else if p :| SpaceAdd(s, s', p) {
      ReservedAdd(s.ops, MAXOPBLOCKS, p);
    } else if p :| SpaceEnd(s, s', p) {
      ReservedSplit(s.ops, MAXOPBLOCKS, p);
    }
  }

  /**
   Reservation: while operations add at most MAXOPBLOCKS blocks each, the header and what they may still add
   fit in LOGSIZE.
   */
  lemma {:induction false} ReservationHolds(a: Area, run: seq<State>, i: nat)
    requires IsRun(a, run) && i < |run| && AllAtMost(run, MAXOPBLOCKS)
    ensures |run[i].lh| + Reserved(run[i].ops, MAXOPBLOCKS) <= LOGSIZE
  {
    hide IsRun, SpaceStep, OpsAtMost;
    if i == 0 {
      RunStarts(a, run);
    } else {
      hide Reserved;
      ReservationHolds(a, run, i - 1);
      RunSpaceStep(a, run, i - 1);
      ReservationStep(run[i - 1], run[i]);
    }
  }

  lemma SpareSlotsStep(s: State, s': State)
    requires SpaceStep(s, s') && OpsAtMost(s, MAXOPBLOCKS - 1)
    requires s.ops != map[] ==> |s.lh| + Reserved(s.ops, MAXOPBLOCKS - 1) <= LOGSIZE - 2
    ensures s'.ops != map[] ==> |s'.lh| + Reserved(s'.ops, MAXOPBLOCKS - 1) <= LOGSIZE - 2
  {
    ReservedBound(s.ops, MAXOPBLOCKS - 1);
    if p :| SpaceBegin(s, s', p) {
      ReservedBegin(s.ops, MAXOPBLOCKS - 1, p);
    } else if p :| SpaceAdd(s, s', p) {
      ReservedAdd(s.ops, MAXOPBLOCKS - 1, p);
    } else if p :| SpaceEnd(s, s', p) {
      ReservedSplit(s.ops, MAXOPBLOCKS - 1, p);
    }
  }

  /** If every operation adds at most MAXOPBLOCKS - 1 blocks, two slots are always left over while any is in progress. */
  lemma {:induction false} SpareSlots(a: Area, run: seq<State>, i: nat)
    requires IsRun(a, run) && i < |run| && AllAtMost(run, MAXOPBLOCKS - 1)
    ensures run[i].ops != map[] ==> |run[i].lh| + Reserved(run[i].ops, MAXOPBLOCKS - 1) <= LOGSIZE - 2
  {
    hide IsRun, SpaceStep, OpsAtMost;
    if i == 0 {
      RunStarts(a, run);
    } else {
      hide Reserved;
      SpareSlots(a, run, i - 1);
      RunSpaceStep(a, run, i - 1);
      SpareSlotsStep(run[i - 1], run[i]);
    }
  }

  /**
   panic("too big a transaction") is unreachable on the log that mkfs builds (nlog = LOGSIZE blocks, one of
   them the header) when every operation adds at most MAXOPBLOCKS - 1 blocks: for adding and for absorbed writes alike.
   */
  lemma NeverTooBig(a: Area, run: seq<State>, i: nat)
    requires IsRun(a, run) && i < |run| && AllAtMost(run, MAXOPBLOCKS - 1)
    requires a.size == LOGSIZE && run[i].ops != map[]
    ensures !TooBig(a, run[i])
  {
    hide IsRun, Reserved;
    SpareSlots(a, run, i);
    ReservedBound(run[i].ops, MAXOPBLOCKS - 1);
  }

  // MAXOPBLOCKS blocks each is one too many: three operations that add ten blocks each reach the panic.

  const SmallArea: Area := Area(2, LOGSIZE)

  ghost function ZeroDisk(): Image {
    seq(100, _ => Block(seq(WORDS, _ => 0)))
  }

  function OpsAfter(n: nat): map<Proc, nat>
    requires n <= 30
  {
    map[0 := if n <= 10 then n else 10,
        1 := if n <= 10 then 0 else if n <= 20 then n - 10 else 10,
        2 := if n <= 20 then 0 else n - 20]
  }

  ghost function CacheAfter(n: nat): (cache: map<int, Buf>)
    requires n <= 30
    ensures |cache| == n + 1 && forall b :: b in cache ==> b < 40 + n
  {
    if n == 0 then map[2 := Buf(true, ZeroDisk()[2], 0, None)]
    else CacheAfter(n - 1)[39 + n := Buf(true, ZeroDisk()[39 + n], 1, None)]
  }

  function HeaderAfter(n: nat): (lh: seq<int>)
    ensures |lh| == n && forall b :: b in lh ==> b < 40 + n
  {
    if n == 0 then [] else HeaderAfter(n - 1) + [39 + n]
  }

  /** The state in which operations 0, 1 and 2, in that order, have logged blocks 40 to 39 + n. */
  ghost function Logged(n: nat): State
    requires n <= 30
  {
    State(ZeroDisk(), CacheAfter(n), {}, HeaderAfter(n), OpsAfter(n), {}, Running, 0)
  }

  /** A run that ends in s, in which no operation adds more than MAXOPBLOCKS blocks. */
  ghost predicate Reaches(run: seq<State>, s: State) {
    IsRun(SmallArea, run) && run[|run| - 1] == s && AllAtMost(run, MAXOPBLOCKS)
  }

  lemma Extend(run: seq<State>, s: State, step: Step, s': State)
    requires Reaches(run, s) && Does(SmallArea, s, s', step) && OpsAtMost(s', MAXOPBLOCKS)
    ensures Reaches(run + [s'], s')
  {
    var longer := run + [s'];
    forall i | 0 <= i < |longer| - 1
      ensures Next(SmallArea, longer[i], longer[i + 1])
    {
      if i == |run| - 1 {
        assert Does(SmallArea, longer[i], longer[i + 1], step);
      }
    }
  }

  function Fetched(s: State, p: Proc, b: int): State
    requires 0 <= b < |s.disk|
  {
    s.(cache := s.cache[b := Buf(true, s.disk[b], 1, Some(p))], refs := s.refs + {(p, b)})
  }

  /** bread of an uncached block. */
  lemma Fetch(run: seq<State>, s: State, p: Proc, b: int) returns (run': seq<State>)
    requires Reaches(run, s) && OpsAtMost(s, MAXOPBLOCKS)
    requires 0 <= b < |s.disk| && b !in s.cache && |s.cache| < NBUF
    ensures Reaches(run', Fetched(s, p, b))
  {
    hide Reaches;
    var s1 := s.(cache := s.cache[b := Buf(false, s.disk[b], 1, None)], refs := s.refs + {(p, b)});
    var s2 := s1.(cache := s1.cache[b := Buf(false, s.disk[b], 1, Some(p))]);
    var s3 := s2.(cache := s2.cache[b := Buf(true, s.disk[b], 1, Some(p))]);
    Extend(run, s, BgetMissStep(p, b, None, s.disk[b]), s1);
    Extend(run + [s1], s1, LockBufStep(p, b), s2);
    Extend(run + [s1] + [s2], s2, ReadBufStep(p, b), s3);
    run' := run + [s1] + [s2] + [s3];
    assert s3.cache == s.cache[b := Buf(true, s.disk[b], 1, Some(p))];
  }

  function Released(s: State, p: Proc, b: int): State
    requires b in s.cache
  {
    s.(cache := s.cache[b := s.cache[b].(owner := None, refcnt := s.cache[b].refcnt - 1)], refs := s.refs - {(p, b)})
  }

  /** brelse. */
  lemma Release(run: seq<State>, s: State, p: Proc, b: int) returns (run': seq<State>)
    requires Reaches(run, s) && OpsAtMost(s, MAXOPBLOCKS)
    requires (p, b) in s.refs && Holds(s, p, b) && b !in s.dirty
    ensures Reaches(run', Released(s, p, b))
  {
    hide Reaches;
    var s1 := s.(cache := s.cache[b := s.cache[b].(owner := None)]);
    var s2 := Released(s, p, b);
    assert s2.cache == s1.cache[b := s1.cache[b].(refcnt := s.cache[b].refcnt - 1)];
    Extend(run, s, UnlockBufStep(p, b), s1);
    Extend(run + [s1], s1, DropBufStep(p, b), s2);
    run' := run + [s1] + [s2];
  }

  lemma ZeroDiskIdle()
    ensures Idle(SmallArea, ZeroDisk()) && PutHead(ZeroDisk()[2], []) == ZeroDisk()[2]
    ensures HeadOf(ZeroDisk()[2]) == [] && WfBlock(ZeroDisk()[2])
  {
    var blk := ZeroDisk()[2];
    assert [0] + [] + blk.words[1..] == blk.words;
  }

  function Empty(d: Image, cache: map<int, Buf>, phase: Phase): State {
    State(d, cache, {}, [], map[], {}, phase, 0)
  }

  lemma PowerOn()
    ensures var s := Empty(ZeroDisk(), map[], Booting); Reaches([s], s)
  {
    ZeroDiskIdle();
  }

  /** The states of recovery on the blank disk, with the header block held. */
  ghost function BootState(phase: Phase): State {
    Fetched(Empty(ZeroDisk(), map[], phase), 0, 2)
  }

  lemma BootReads()
    ensures Does(SmallArea, BootState(Booting), BootState(Installing(0, true)), ReadHeadStep)
  {
    hide ZeroDisk, HeadOf;
    ZeroDiskSize();
    ZeroDiskIdle();
  }

  lemma BootClears()
    ensures Does(SmallArea, BootState(Installing(0, true)), BootState(Running), ClearHeadStep)
  {
    hide ZeroDisk, PutHead, WfBlock, Idle;
    ZeroDiskSize();
    ZeroDiskIdle();
    var s := BootState(Installing(0, true));
    assert s.cache[2 := s.cache[2].(data := s.disk[2])] == s.cache && s.disk[2 := s.disk[2]] == s.disk;
  }

  lemma BootRun() returns (run: seq<State>)
    ensures Reaches(run, Empty(ZeroDisk(), CacheAfter(0), Running))
  {
    hide Reaches, ZeroDisk, Does;
    ZeroDiskSize();
    PowerOn();
    var s0 := Empty(ZeroDisk(), map[], Booting);
    run := Fetch([s0], s0, 0, 2);
    BootReads();
    Extend(run, BootState(Booting), ReadHeadStep, BootState(Installing(0, true)));
    run := run + [BootState(Installing(0, true))];
    BootClears();
    Extend(run, BootState(Installing(0, true)), ClearHeadStep, BootState(Running));
    run := Release(run + [BootState(Running)], BootState(Running), 0, 2);
    assert Released(BootState(Running), 0, 2) == Empty(ZeroDisk(), CacheAfter(0), Running);
  }

  lemma ZeroDiskSize()
    ensures |ZeroDisk()| == 100
  {
  }

  lemma BeginRun() returns (run: seq<State>)
    ensures Reaches(run, Logged(0))
  {
    hide Reaches, ZeroDisk, CacheAfter;
    run := BootRun();
    var s := Empty(ZeroDisk(), CacheAfter(0), Running);
    var s0, s1, s2 := s.(ops := map[0 := 0]), s.(ops := map[0 := 0, 1 := 0]), s.(ops := map[0 := 0, 1 := 0, 2 := 0]);
    Extend(run, s, BeginOpStep(0), s0);
    Extend(run + [s0], s0, BeginOpStep(1), s1);
    Extend(run + [s0] + [s1], s1, BeginOpStep(2), s2);
    run := run + [s0] + [s1] + [s2];
    assert s2 == Logged(0);
  }

  /** Logged(n) once block 40 + n has been fetched and logged by its operation. */
  ghost function Added(n: nat): State
    requires n < 29
  {
    Fetched(Logged(n), n / 10, 40 + n).(
      cache := CacheAfter(n)[40 + n := Buf(true, ZeroDisk()[40 + n], 2, Some(n / 10))],
      lh := HeaderAfter(n) + [40 + n],
      ops := OpsAfter(n + 1))
  }

  lemma OneAdded(n: nat)
    requires n < 29
    ensures n / 10 in OpsAfter(n) && OpsAfter(n + 1) == OpsAfter(n)[n / 10 := OpsAfter(n)[n / 10] + 1]
    ensures OpsAtMost(Logged(n), MAXOPBLOCKS) && OpsAtMost(Added(n), MAXOPBLOCKS)
  {
  }

  lemma LogAdds(n: nat)
    requires n < 29
    ensures Does(SmallArea, Fetched(Logged(n), n / 10, 40 + n), Added(n), LogWriteStep(n / 10, 40 + n))
  {
    hide ZeroDisk, OpsAfter, HeaderAfter;
    ZeroDiskSize();
    OneAdded(n);
    var s := Fetched(Logged(n), n / 10, 40 + n);
    assert s.cache[40 + n := s.cache[40 + n].(refcnt := 2)] == Added(n).cache;
    assert 40 + n !in s.lh && n / 10 in s.ops;
    assert Home(SmallArea, s.disk, 40 + n) && !TooBig(SmallArea, s);
    assert Added(n).ops == s.ops[n / 10 := s.ops[n / 10] + 1];
  }

  /** One operation logs one more block: bread, log_write, brelse. */
  lemma LogOneMore(run: seq<State>, n: nat) returns (run': seq<State>)
    requires n < 29 && Reaches(run, Logged(n))
    ensures Reaches(run', Logged(n + 1))
  {
    hide Reaches, ZeroDisk, Does, OpsAfter, CacheAfter, HeaderAfter;
    ZeroDiskSize();
    OneAdded(n);
    var p, b := n / 10, 40 + n;
    var fetched := Fetch(run, Logged(n), p, b);
    LogAdds(n);
    Extend(fetched, Fetched(Logged(n), p, b), LogWriteStep(p, b), Added(n));
    run' := Release(fetched + [Added(n)], Added(n), p, b);
    ReleasedIs(n);
  }

  lemma ReleasedIs(n: nat)
    requires n < 29
    ensures Released(Added(n), n / 10, 40 + n) == Logged(n + 1)
  {
    hide ZeroDisk, OpsAfter;
    ZeroDiskSize();
    var s := Released(Added(n), n / 10, 40 + n);
    assert s.cache == CacheAfter(n + 1);
    assert s.lh == HeaderAfter(n + 1);
    assert s.refs == {};
  }

  /** A legal run in which an operation that has added nine blocks cannot log its tenth. */
  lemma TooBigReachable() returns (run: seq<State>)
    ensures IsRun(SmallArea, run) && AllAtMost(run, MAXOPBLOCKS)
    ensures SmallArea.size == LOGSIZE
    ensures var s := run[|run| - 1]; 2 in s.ops && s.ops[2] < MAXOPBLOCKS && TooBig(SmallArea, s)
  {
    run := BeginRun();
    var n := 0;
    while n < 29
      invariant n <= 29 && Reaches(run, Logged(n))
    {
      run := LogOneMore(run, n);
      n := n + 1;
    }
  }
}

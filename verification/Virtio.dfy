/**
 The protocol between the disk driver of kernel/virtio_disk.c and a virtio block device: a pool of NUM descriptors, the
 avail ring by which the driver hands over requests and the used ring by which the device hands them back. The device
 works on its own, in any order. In every run of the two, each request is carried out exactly once and as asked, no
 ring entry is overwritten before it is read, and none of the driver's panics is reachable, across the wrap-around of
 the 16-bit indices.
 */
module Virtio {
  import opened Collections

  const NUM: nat := 8
  const U16: nat := 0x1_0000

  type BufId = nat
  type Content = nat

  /** What a descriptor's address points to. */
  datatype Target = Nowhere | Header(h: nat) | Data(b: BufId) | Status(s: nat)

  /** more is VRING_DESC_F_NEXT, devWrites VRING_DESC_F_WRITE. */
  datatype Desc = Desc(addr: Target, next: nat, more: bool, devWrites: bool)

  const ZERO: Desc := Desc(Nowhere, 0, false, false)

  /** struct virtio_blk_req. */
  datatype Op = Op(write: bool, sector: nat)

  /** disk.info: the buffer of the request and whether its status byte is 0. */
  datatype Info = Info(b: Option<BufId>, ok: bool)

  /**
   Filled: the chain and the ring slot are written, avail->idx is not yet bumped. Queued(k): the k-th request handed
   over, not yet taken. Taken: the device is working on it. Returned(m): the m-th one handed back, not yet seen by the
   interrupt handler. Done: b->disk is 0 and the caller will free the chain.
   */
  datatype Stage = Filled | Queued(k: nat) | Taken | Returned(m: nat) | Done

  /** A call of virtio_disk_rw that has its descriptors; its first descriptor is the key in reqs. */
  datatype Req = Req(b: BufId, op: Op, mid: nat, last: nat, stage: Stage)

  /** The two rings and their 16-bit indices; a, d, u and v count the same events without wrapping around. */
  datatype Rings = Rings(
    avail: seq<nat>, availIdx: nat, devIdx: nat,
    used: seq<nat>, usedIdx: nat, usedSeen: nat,
    a: nat, d: nat, u: nat, v: nat
  )

  /** working is what the device has taken, busy the buffers whose disk field is 1, lock the request holding vdisk_lock. */
  datatype Sys = Sys(
    free: seq<bool>, desc: seq<Desc>, ops: seq<Op>, info: seq<Info>,
    rings: Rings,
    working: set<nat>,
    disk: map<nat, Content>, mem: map<BufId, Content>,
    busy: set<BufId>,
    lock: Option<nat>,
    reqs: map<nat, Req>
  )

  datatype Step =
    | Submit(b: BufId, op: Op, i0: nat, i1: nat, i2: nat)
    | Publish
    | Take
    | Complete(h: nat)
    | Interrupt
    | Finish(h: nat)
    | Store(b: BufId, c: Content)

  function At(s: seq<nat>, i: nat): nat {
    if i < |s| then s[i] else 0
  }

  function DescAt(s: Sys, i: nat): Desc {
    if i < |s.desc| then s.desc[i] else ZERO
  }

  function InfoAt(s: Sys, i: nat): Info {
    if i < |s.info| then s.info[i] else Info(None, false)
  }

  function OpAt(s: Sys, i: nat): Op {
    if i < |s.ops| then s.ops[i] else Op(false, 0)
  }

  predicate IsFree(s: Sys, i: nat) {
    i < |s.free| && s.free[i]
  }

  ghost predicate InUse(s: Sys, b: BufId) {
    exists h :: h in s.reqs && s.reqs[h].b == b
  }

  /**
   Submit's buffer is locked by its caller, so no other request has it. Store: the kernel changes a buffer that is not
   in a request.
   */
  ghost predicate Enabled(s: Sys, step: Step) {
    match step
    case Submit(b, op, i0, i1, i2) =>
      && s.lock == None && !InUse(s, b) && b in s.mem && op.sector in s.disk
      && IsFree(s, i0) && IsFree(s, i1) && IsFree(s, i2) && i0 != i1 && i0 != i2 && i1 != i2
    case Publish => s.lock.Some?
    case Take => s.rings.devIdx != s.rings.availIdx
    case Complete(h) => h in s.working
    case Interrupt => s.lock == None && s.rings.usedSeen != s.rings.usedIdx
    case Finish(h) => s.lock == None && h in s.reqs && s.reqs[h].b !in s.busy
    case Store(b, c) => b in s.mem && !InUse(s, b)
  }

  function Set<T>(s: seq<T>, i: nat, x: T): seq<T> {
    if i < |s| then s[i := x] else s
  }

  function Staged(reqs: map<nat, Req>, h: nat, stage: Stage): map<nat, Req> {
    if h in reqs then reqs[h := reqs[h].(stage := stage)] else reqs
  }

  /** virtio_disk_rw from the allocation of the descriptors to the write of the ring slot. */
  function DoSubmit(s: Sys, b: BufId, op: Op, i0: nat, i1: nat, i2: nat): Sys {
    s.(free := Set(Set(Set(s.free, i0, false), i1, false), i2, false),
       ops := Set(s.ops, i0, op),
       desc := Set(Set(Set(s.desc, i0, Desc(Header(i0), i1, true, false)),
                       i1, Desc(Data(b), i2, true, !op.write)),
                   i2, Desc(Status(i0), 0, false, true)),
       info := Set(s.info, i0, Info(Some(b), false)),
       busy := s.busy + {b},
       rings := s.rings.(avail := Set(s.rings.avail, s.rings.availIdx % NUM, i0)),
       lock := Some(i0),
       reqs := s.reqs[i0 := Req(b, op, i1, i2, Filled)])
  }

  function DoPublish(s: Sys): Sys {
    s.(rings := s.rings.(availIdx := (s.rings.availIdx + 1) % U16, a := s.rings.a + 1),
       lock := None,
       reqs := if s.lock.Some? then Staged(s.reqs, s.lock.value, Queued(s.rings.a)) else s.reqs)
  }

  function DoTake(s: Sys): Sys {
    var h := At(s.rings.avail, s.rings.devIdx % NUM);
    s.(rings := s.rings.(devIdx := (s.rings.devIdx + 1) % U16, d := s.rings.d + 1),
       working := s.working + {h},
       reqs := Staged(s.reqs, h, Taken))
  }

  /** What the device reads of the chain that begins at h: the header, the buffer and the place of the status byte. */
  function HeaderOf(s: Sys, h: nat): Op {
    match DescAt(s, h).addr
    case Header(i) => OpAt(s, i)
    case _ => Op(false, 0)
  }

  function BufferOf(s: Sys, h: nat): Option<BufId> {
    match DescAt(s, DescAt(s, h).next).addr
    case Data(b) => Some(b)
    case _ => None
  }

  function StatusOf(s: Sys, h: nat): nat {
    match DescAt(s, DescAt(s, DescAt(s, h).next).next).addr
    case Status(i) => i
    case _ => |s.info|
  }

  /** The device carries out the chain, in the direction its header says, writes the status and the used entry. */
  function DoComplete(s: Sys, h: nat): Sys {
    var op, b, st := HeaderOf(s, h), BufferOf(s, h), StatusOf(s, h);
    s.(disk := if op.write && b.Some? && b.value in s.mem then s.disk[op.sector := s.mem[b.value]] else s.disk,
       mem := if !op.write && b.Some? && op.sector in s.disk then s.mem[b.value := s.disk[op.sector]] else s.mem,
       info := Set(s.info, st, InfoAt(s, st).(ok := true)),
       rings := s.rings.(used := Set(s.rings.used, s.rings.usedIdx % NUM, h),
                         usedIdx := (s.rings.usedIdx + 1) % U16, u := s.rings.u + 1),
       working := s.working - {h},
       reqs := Staged(s.reqs, h, Returned(s.rings.u)))
  }

  /** One turn of virtio_disk_intr's loop. */
  function DoInterrupt(s: Sys): Sys {
    var id := At(s.rings.used, s.rings.usedSeen % NUM);
    var b := InfoAt(s, id).b;
    s.(busy := if b.Some? then s.busy - {b.value} else s.busy,
       rings := s.rings.(usedSeen := (s.rings.usedSeen + 1) % U16, v := s.rings.v + 1),
       reqs := Staged(s.reqs, id, Done))
  }

  function Freed(s: Sys, i: nat): Sys {
    s.(free := Set(s.free, i, true), desc := Set(s.desc, i, ZERO))
  }

  /** virtio_disk_rw after its wait: free_chain follows the descriptors' own links. */
  function DoFinish(s: Sys, h: nat): Sys {
    var i1 := DescAt(s, h).next;
    var i2 := DescAt(s, i1).next;
    Freed(Freed(Freed(s, h), i1), i2).(info := Set(s.info, h, InfoAt(s, h).(b := None)), reqs := s.reqs - {h})
  }

  function Do(s: Sys, step: Step): Sys {
    match step
    case Submit(b, op, i0, i1, i2) => DoSubmit(s, b, op, i0, i1, i2)
    case Publish => DoPublish(s)
    case Take => DoTake(s)
    case Complete(h) => DoComplete(s, h)
    case Interrupt => DoInterrupt(s)
    case Finish(h) => DoFinish(s, h)
    case Store(b, c) => s.(mem := s.mem[b := c])
  }

  // The invariant.

  predicate Sizes(s: Sys) {
    && |s.free| == |s.desc| == |s.ops| == |s.info| == NUM
    && |s.rings.avail| == |s.rings.used| == NUM
  }

  /** i is one of the three descriptors of request r at h. */
  predicate On(h: nat, r: Req, i: nat) {
    i == h || i == r.mid || i == r.last
  }

  function Chain(h: nat, r: Req): set<nat> {
    {h, r.mid, r.last}
  }

  /** The chain's descriptors are allocated and say what the request asks for. */
  predicate ChainOk(s: Sys, h: nat, r: Req)
    requires Sizes(s)
  {
    && h < NUM && r.mid < NUM && r.last < NUM && h != r.mid && h != r.last && r.mid != r.last
    && !s.free[h] && !s.free[r.mid] && !s.free[r.last]
    && s.desc[h] == Desc(Header(h), r.mid, true, false)
    && s.desc[r.mid] == Desc(Data(r.b), r.last, true, !r.op.write)
    && s.desc[r.last] == Desc(Status(h), 0, false, true)
    && s.ops[h] == r.op
    && s.info[h].b == Some(r.b)
    && r.b in s.mem && r.op.sector in s.disk
  }

  predicate StageOk(s: Sys, h: nat, r: Req)
    requires Sizes(s)
  {
    && (r.b in s.busy <==> r.stage != Done)
    && (h < NUM && (r.stage.Returned? || r.stage.Done?) ==> s.info[h].ok)
    && match r.stage
       case Filled => s.lock == Some(h) && s.rings.avail[s.rings.a % NUM] == h
       case Queued(k) => s.rings.d <= k < s.rings.a && s.rings.avail[k % NUM] == h
       case Taken => h in s.working
       case Returned(m) => s.rings.v <= m < s.rings.u && s.rings.used[m % NUM] == h
       case Done => true
  }

  /** Two requests share no descriptor and no buffer. */
  predicate Strangers(h: nat, r: Req, g: nat, q: Req) {
    !On(h, r, g) && !On(h, r, q.mid) && !On(h, r, q.last) && r.b != q.b
  }

  ghost predicate Apart(s: Sys) {
    forall h, g :: h in s.reqs && g in s.reqs && h != g ==> Strangers(h, s.reqs[h], g, s.reqs[g])
  }

  predicate IsStage(s: Sys, h: nat, stage: Stage) {
    h in s.reqs && s.reqs[h].stage == stage
  }

  predicate IndicesOk(r: Rings) {
    && r.d <= r.a && r.v <= r.u
    && r.availIdx == r.a % U16 && r.devIdx == r.d % U16 && r.usedIdx == r.u % U16 && r.usedSeen == r.v % U16
  }

  predicate QueuedAt(s: Sys, k: nat)
    requires Sizes(s)
  {
    IsStage(s, s.rings.avail[k % NUM], Queued(k))
  }

  predicate ReturnedAt(s: Sys, m: nat)
    requires Sizes(s)
  {
    IsStage(s, s.rings.used[m % NUM], Returned(m))
  }

  /** Every entry between the indices names the request that was put there. */
  ghost predicate EntriesOk(s: Sys)
    requires Sizes(s)
  {
    && (forall k :: s.rings.d <= k < s.rings.a ==> QueuedAt(s, k))
    && (forall m :: s.rings.v <= m < s.rings.u ==> ReturnedAt(s, m))
    && (forall h :: h in s.working ==> IsStage(s, h, Taken))
    && (s.lock.Some? ==> IsStage(s, s.lock.value, Filled))
  }

  ghost predicate ReqsOk(s: Sys)
    requires Sizes(s)
  {
    forall h :: h in s.reqs ==> ReqOk(s, h)
  }

  predicate ReqOk(s: Sys, h: nat)
    requires Sizes(s) && h in s.reqs
  {
    ChainOk(s, h, s.reqs[h]) && StageOk(s, h, s.reqs[h])
  }

  predicate OwnedBy(s: Sys, i: nat, h: nat) {
    h in s.reqs && On(h, s.reqs[h], i)
  }

  ghost predicate Owned(s: Sys, i: nat) {
    exists h :: OwnedBy(s, i, h)
  }

  ghost predicate FreesOk(s: Sys)
    requires Sizes(s)
  {
    forall i :: 0 <= i < NUM && !s.free[i] ==> Owned(s, i)
  }

  ghost predicate Inv(s: Sys) {
    Sizes(s) && IndicesOk(s.rings) && Apart(s) && EntriesOk(s) && ReqsOk(s) && FreesOk(s)
  }

  // At most two requests.

  ghost predicate Disjoint(reqs: map<nat, Req>, pool: set<nat>) {
    && (forall h :: h in reqs ==> Chain(h, reqs[h]) <= pool && h != reqs[h].mid && h != reqs[h].last && reqs[h].mid != reqs[h].last)
    && (forall h, g :: h in reqs && g in reqs && h != g ==> Chain(h, reqs[h]) !! Chain(g, reqs[g]))
  }

  lemma {:induction false} ThreeEach(reqs: map<nat, Req>, pool: set<nat>)
    requires Disjoint(reqs, pool)
    ensures 3 * |reqs| <= |pool|
    decreases |reqs|
  {
    if |reqs| > 0 {
      var h :| h in reqs;
      var rest, chain := reqs - {h}, Chain(h, reqs[h]);
      assert rest.Keys == reqs.Keys - {h};
      assert Disjoint(rest, pool - chain);
      ThreeEach(rest, pool - chain);
      assert |chain| == 3;
      assert |pool - chain| == |pool| - 3;
    }
  }

  lemma ChainInPool(s: Sys, h: nat)
    requires Sizes(s) && h in s.reqs && ReqOk(s, h)
    ensures Chain(h, s.reqs[h]) <= Below(NUM)
    ensures h != s.reqs[h].mid && h != s.reqs[h].last && s.reqs[h].mid != s.reqs[h].last
  {
    hide StageOk;
  }

  lemma ChainsApart(h: nat, r: Req, g: nat, q: Req)
    requires Strangers(h, r, g, q)
    ensures Chain(h, r) !! Chain(g, q)
  {
  }

  /** NUM descriptors hold no more than two requests. */
  lemma AtMostTwo(s: Sys)
    requires Sizes(s) && ReqsOk(s) && Apart(s)
    ensures |s.reqs| <= 2
  {
    hide ReqOk, Strangers, Chain, Below;
    forall h | h in s.reqs
      ensures Chain(h, s.reqs[h]) <= Below(NUM)
      ensures h != s.reqs[h].mid && h != s.reqs[h].last && s.reqs[h].mid != s.reqs[h].last
    {
      ChainInPool(s, h);
    }
    forall h, g | h in s.reqs && g in s.reqs && h != g
      ensures Chain(h, s.reqs[h]) !! Chain(g, s.reqs[g])
    {
      ChainsApart(h, s.reqs[h], g, s.reqs[g]);
    }
    BelowSize(NUM);
    ThreeEach(s.reqs, Below(NUM));
  }

  lemma {:induction false} QueuedFit(s: Sys, reqs: set<nat>, n: nat)
    requires Sizes(s) && n <= s.rings.a - s.rings.d
    requires forall k :: s.rings.a - n <= k < s.rings.a ==> QueuedAt(s, k) && s.rings.avail[k % NUM] in reqs
    ensures n <= |reqs|
    decreases n
  {
    if n > 0 {
      var k := s.rings.a - n;
      assert QueuedAt(s, k);
      QueuedFit(s, reqs - {s.rings.avail[k % NUM]}, n - 1);
    }
  }

  lemma {:induction false} ReturnedFit(s: Sys, reqs: set<nat>, n: nat)
    requires Sizes(s) && n <= s.rings.u - s.rings.v
    requires forall m :: s.rings.u - n <= m < s.rings.u ==> ReturnedAt(s, m) && s.rings.used[m % NUM] in reqs
    ensures n <= |reqs|
    decreases n
  {
    if n > 0 {
      var m := s.rings.u - n;
      assert ReturnedAt(s, m);
      ReturnedFit(s, reqs - {s.rings.used[m % NUM]}, n - 1);
    }
  }

  /** So neither ring ever holds more than two entries that have not been read. */
  lemma RingsFit(s: Sys)
    requires Inv(s)
    ensures s.rings.a - s.rings.d <= |s.reqs| <= 2 && s.rings.u - s.rings.v <= |s.reqs|
  {
    hide ReqsOk, FreesOk, Apart;
    AtMostTwo(s);
    forall k: nat | s.rings.d <= k < s.rings.a
      ensures QueuedAt(s, k) && s.rings.avail[k % NUM] in s.reqs.Keys
    {
    }
    forall m: nat | s.rings.v <= m < s.rings.u
      ensures ReturnedAt(s, m) && s.rings.used[m % NUM] in s.reqs.Keys
    {
    }
    QueuedFit(s, s.reqs.Keys, s.rings.a - s.rings.d);
    ReturnedFit(s, s.reqs.Keys, s.rings.u - s.rings.v);
  }

  lemma ModWindow(x: nat, y: nat)
    requires x <= y < x + NUM
    ensures x % U16 == y % U16 <==> x == y
    ensures x % NUM == y % NUM <==> x == y
  {
    assert x == U16 * (x / U16) + x % U16 && y == U16 * (y / U16) + y % U16;
  }

  lemma ModIndex(x: nat)
    ensures (x % U16) % NUM == x % NUM && (x % U16 + 1) % U16 == (x + 1) % U16
  {
    var q, r := x / 0x1_0000, x % 0x1_0000;
    assert x == 0x1_0000 * q + r;
    ModSlot(q, r);
    ModNext(q, r);
  }

  lemma ModSlot(q: nat, r: nat)
    ensures (0x1_0000 * q + r) % 8 == r % 8
  {
    assert 0x1_0000 * q + r == 8 * (0x2000 * q) + r;
  }

  lemma ModNext(q: nat, r: nat)
    requires r < 0x1_0000
    ensures (0x1_0000 * q + r + 1) % 0x1_0000 == (r + 1) % 0x1_0000
  {
    if r == 0xFFFF {
      assert 0x1_0000 * q + r + 1 == 0x1_0000 * (q + 1);
    }
  }

  /** The wrapped indices select the slots that the counts do, and tell whether there are entries to read. */
  lemma IndexFacts(s: Sys)
    requires Inv(s)
    ensures var r := s.rings;
            && r.availIdx % NUM == r.a % NUM && r.devIdx % NUM == r.d % NUM
            && r.usedIdx % NUM == r.u % NUM && r.usedSeen % NUM == r.v % NUM
            && (r.devIdx != r.availIdx <==> r.d < r.a) && (r.usedSeen != r.usedIdx <==> r.v < r.u)
            && (r.availIdx + 1) % U16 == (r.a + 1) % U16 && (r.devIdx + 1) % U16 == (r.d + 1) % U16
            && (r.usedIdx + 1) % U16 == (r.u + 1) % U16 && (r.usedSeen + 1) % U16 == (r.v + 1) % U16
  {
    hide ReqsOk, FreesOk, Apart, EntriesOk;
    RingsFit(s);
    var r := s.rings;
    ModWindow(r.d, r.a);
    ModWindow(r.v, r.u);
    ModIndex(r.a);
    ModIndex(r.d);
    ModIndex(r.u);
    ModIndex(r.v);
  }

  /** The slot that the next entry goes to is not one that has yet to be read. */
  lemma SlotsApart(s: Sys, k: nat)
    requires Inv(s)
    ensures s.rings.d <= k < s.rings.a ==> k % NUM != s.rings.a % NUM
    ensures s.rings.v <= k < s.rings.u ==> k % NUM != s.rings.u % NUM
  {
    hide ReqsOk, FreesOk, Apart, EntriesOk;
    RingsFit(s);
    if s.rings.d <= k < s.rings.a {
      ModWindow(k, s.rings.a);
    }
    if s.rings.v <= k < s.rings.u {
      ModWindow(k, s.rings.u);
    }
  }

  // Submit.

  lemma FreeUnchained(s: Sys, i: nat, g: nat)
    requires Inv(s) && IsFree(s, i) && g in s.reqs
    ensures !On(g, s.reqs[g], i)
  {
    hide FreesOk, EntriesOk, Apart, StageOk;
    assert ReqOk(s, g);
  }

  /** The descriptors and the buffer of a new request belong to no other. */
  lemma SubmitStranger(s: Sys, b: BufId, op: Op, i0: nat, i1: nat, i2: nat, g: nat)
    requires Inv(s) && Enabled(s, Submit(b, op, i0, i1, i2)) && g in s.reqs
    ensures Strangers(g, s.reqs[g], i0, Req(b, op, i1, i2, Filled)) && Strangers(i0, Req(b, op, i1, i2, Filled), g, s.reqs[g])
    ensures g != i0
  {
    hide Inv;
    FreeUnchained(s, i0, g);
    FreeUnchained(s, i1, g);
    FreeUnchained(s, i2, g);
  }

  lemma SubmitOther(s: Sys, b: BufId, op: Op, i0: nat, i1: nat, i2: nat, g: nat)
    requires Inv(s) && Enabled(s, Submit(b, op, i0, i1, i2)) && g in s.reqs && g != i0
    ensures var s' := DoSubmit(s, b, op, i0, i1, i2); Sizes(s') && g in s'.reqs && ReqOk(s', g)
  {
    hide FreesOk, EntriesOk, IndicesOk, Apart, InUse;
    IndexFacts(s);
    assert ReqOk(s, g);
    SubmitStranger(s, b, op, i0, i1, i2, g);
    if s.reqs[g].stage.Queued? {
      SlotsApart(s, s.reqs[g].stage.k);
    }
  }

  lemma SubmitOwn(s: Sys, b: BufId, op: Op, i0: nat, i1: nat, i2: nat)
    requires Inv(s) && Enabled(s, Submit(b, op, i0, i1, i2))
    ensures var s' := DoSubmit(s, b, op, i0, i1, i2); Sizes(s') && i0 in s'.reqs && ReqOk(s', i0)
  {
    hide FreesOk, EntriesOk, ReqsOk, Apart, InUse;
    IndexFacts(s);
  }

  lemma SubmitApart(s: Sys, b: BufId, op: Op, i0: nat, i1: nat, i2: nat)
    requires Inv(s) && Enabled(s, Submit(b, op, i0, i1, i2))
    ensures i0 !in s.reqs && Apart(DoSubmit(s, b, op, i0, i1, i2))
  {
    hide FreesOk, EntriesOk, ReqsOk, Enabled, Strangers;
    forall g | g in s.reqs
      ensures Strangers(g, s.reqs[g], i0, Req(b, op, i1, i2, Filled)) && Strangers(i0, Req(b, op, i1, i2, Filled), g, s.reqs[g])
      ensures g != i0
    {
      SubmitStranger(s, b, op, i0, i1, i2, g);
    }
  }

  lemma SubmitEntries(s: Sys, b: BufId, op: Op, i0: nat, i1: nat, i2: nat)
    requires Inv(s) && Enabled(s, Submit(b, op, i0, i1, i2)) && i0 !in s.reqs
    ensures var s' := DoSubmit(s, b, op, i0, i1, i2); Sizes(s') && EntriesOk(s')
  {
    hide ReqsOk, FreesOk, Apart;
    var s' := DoSubmit(s, b, op, i0, i1, i2);
    IndexFacts(s);
    forall k: nat | s.rings.d <= k < s.rings.a
      ensures QueuedAt(s', k)
    {
      assert QueuedAt(s, k);
      SlotsApart(s, k);
    }
    forall m: nat | s.rings.v <= m < s.rings.u
      ensures ReturnedAt(s', m)
    {
      assert ReturnedAt(s, m);
    }
  }

  lemma SubmitFrees(s: Sys, b: BufId, op: Op, i0: nat, i1: nat, i2: nat)
    requires Inv(s) && Enabled(s, Submit(b, op, i0, i1, i2)) && i0 !in s.reqs
    ensures var s' := DoSubmit(s, b, op, i0, i1, i2); Sizes(s') && FreesOk(s')
  {
    hide ReqsOk, EntriesOk, Apart;
    var s' := DoSubmit(s, b, op, i0, i1, i2);
    forall i | 0 <= i < NUM && !s'.free[i]
      ensures Owned(s', i)
    {
      if i == i0 || i == i1 || i == i2 {
        assert OwnedBy(s', i, i0);
      } else {
        assert Owned(s, i);
        var h :| OwnedBy(s, i, h);
        assert OwnedBy(s', i, h);
      }
    }
  }

  lemma SubmitKeeps(s: Sys, b: BufId, op: Op, i0: nat, i1: nat, i2: nat)
    requires Inv(s) && Enabled(s, Submit(b, op, i0, i1, i2))
    ensures Inv(DoSubmit(s, b, op, i0, i1, i2))
  {
    hide Enabled, FreesOk, EntriesOk, Apart, ReqOk;
    var s' := DoSubmit(s, b, op, i0, i1, i2);
    SubmitOwn(s, b, op, i0, i1, i2);
    SubmitApart(s, b, op, i0, i1, i2);
    SubmitEntries(s, b, op, i0, i1, i2);
    SubmitFrees(s, b, op, i0, i1, i2);
    forall g | g in s'.reqs
      ensures ReqOk(s', g)
    {
      if g != i0 {
        SubmitOther(s, b, op, i0, i1, i2, g);
      }
    }
  }

  // Steps that only move one request on.

  /** s' differs from s in the stage of h, and in things that do not concern descriptors. */
  ghost predicate Advances(s: Sys, s': Sys, h: nat, stage: Stage) {
    && h in s.reqs
    && s'.reqs == s.reqs[h := s.reqs[h].(stage := stage)]
    && s'.free == s.free && s'.desc == s.desc && s'.ops == s.ops
    && |s'.info| == |s.info| && |s'.rings.avail| == |s.rings.avail| && |s'.rings.used| == |s.rings.used|
    && s'.mem.Keys == s.mem.Keys && s'.disk.Keys == s.disk.Keys
    && (forall i :: 0 <= i < |s.info| ==> s'.info[i].b == s.info[i].b && (s.info[i].ok ==> s'.info[i].ok))
  }

  lemma AdvancesChain(s: Sys, s': Sys, h: nat, stage: Stage, g: nat)
    requires Inv(s) && Advances(s, s', h, stage) && g in s.reqs
    ensures Sizes(s') && ChainOk(s', g, s'.reqs[g])
  {
    hide EntriesOk, StageOk, FreesOk, Apart;
    assert ReqOk(s, g);
  }

  lemma AdvancesFrees(s: Sys, s': Sys, h: nat, stage: Stage)
    requires Inv(s) && Advances(s, s', h, stage)
    ensures Sizes(s') && Apart(s') && FreesOk(s')
  {
    hide EntriesOk, ReqsOk;
    forall i | 0 <= i < NUM && !s'.free[i]
      ensures Owned(s', i)
    {
      assert Owned(s, i);
      var g :| OwnedBy(s, i, g);
      assert OwnedBy(s', i, g);
    }
    forall g, f | g in s'.reqs && f in s'.reqs && g != f
      ensures Strangers(g, s'.reqs[g], f, s'.reqs[f])
    {
      assert Strangers(g, s.reqs[g], f, s.reqs[f]);
    }
  }

  /** It remains to see to the rings and the stages. */
  lemma AdvancesKeeps(s: Sys, s': Sys, h: nat, stage: Stage)
    requires Inv(s) && Advances(s, s', h, stage) && Sizes(s') && IndicesOk(s'.rings) && EntriesOk(s')
    requires forall g :: g in s'.reqs ==> StageOk(s', g, s'.reqs[g])
    ensures Inv(s')
  {
    hide EntriesOk, StageOk, FreesOk, Apart, ChainOk, IndicesOk;
    AdvancesFrees(s, s', h, stage);
    forall g | g in s'.reqs
      ensures ReqOk(s', g)
    {
      AdvancesChain(s, s', h, stage, g);
    }
  }

  lemma StageOf(s: Sys, g: nat)
    requires Inv(s) && g in s.reqs
    ensures StageOk(s, g, s.reqs[g])
  {
    assert ReqOk(s, g);
  }

  lemma PublishKeeps(s: Sys)
    requires Inv(s) && Enabled(s, Publish)
    ensures Inv(DoPublish(s))
  {
    hide Apart, FreesOk, ReqsOk;
    var s', h := DoPublish(s), s.lock.value;
    IndexFacts(s);
    StageOf(s, h);
    forall k: nat | s'.rings.d <= k < s'.rings.a
      ensures QueuedAt(s', k)
    {
      if k < s.rings.a {
        assert QueuedAt(s, k);
      }
    }
    forall m: nat | s'.rings.v <= m < s'.rings.u
      ensures ReturnedAt(s', m)
    {
      assert ReturnedAt(s, m);
    }
    forall g | g in s'.reqs
      ensures StageOk(s', g, s'.reqs[g])
    {
      StageOf(s, g);
    }
    AdvancesKeeps(s, s', h, Queued(s.rings.a));
  }

  lemma TakeKeeps(s: Sys)
    requires Inv(s) && Enabled(s, Take)
    ensures Inv(DoTake(s))
  {
    hide Apart, FreesOk, ReqsOk;
    IndexFacts(s);
    var s', h := DoTake(s), s.rings.avail[s.rings.d % NUM];
    assert QueuedAt(s, s.rings.d);
    StageOf(s, h);
    forall k: nat | s'.rings.d <= k < s'.rings.a
      ensures QueuedAt(s', k)
    {
      assert QueuedAt(s, k);
    }
    forall m: nat | s'.rings.v <= m < s'.rings.u
      ensures ReturnedAt(s', m)
    {
      assert ReturnedAt(s, m);
    }
    forall g | g in s'.reqs
      ensures StageOk(s', g, s'.reqs[g])
    {
      StageOf(s, g);
    }
    AdvancesKeeps(s, s', h, Taken);
  }

  /** Following the chain, the device finds the request's own header, buffer and status byte. */
  lemma DeviceReads(s: Sys, h: nat)
    requires Inv(s) && h in s.reqs
    ensures HeaderOf(s, h) == s.reqs[h].op && BufferOf(s, h) == Some(s.reqs[h].b) && StatusOf(s, h) == h < |s.info|
    ensures s.reqs[h].b in s.mem && s.reqs[h].op.sector in s.disk
  {
    hide EntriesOk, FreesOk, Apart;
    assert ReqOk(s, h);
  }

  lemma CompleteKeeps(s: Sys, h: nat)
    requires Inv(s) && Enabled(s, Complete(h))
    ensures Inv(DoComplete(s, h))
  {
    hide Apart, FreesOk, ReqsOk, HeaderOf, BufferOf, StatusOf;
    IndexFacts(s);
    var s' := DoComplete(s, h);
    assert IsStage(s, h, Taken);
    StageOf(s, h);
    DeviceReads(s, h);
    CompleteEntries(s, h);
    forall g | g in s'.reqs
      ensures StageOk(s', g, s'.reqs[g])
    {
      StageOf(s, g);
      if g != h && s.reqs[g].stage.Returned? {
        SlotsApart(s, s.reqs[g].stage.m);
      }
    }
    AdvancesKeeps(s, s', h, Returned(s.rings.u));
  }

  lemma CompleteEntries(s: Sys, h: nat)
    requires Inv(s) && Enabled(s, Complete(h)) && IsStage(s, h, Taken)
    ensures var s' := DoComplete(s, h); Sizes(s') && EntriesOk(s')
  {
    hide Apart, FreesOk, ReqsOk, HeaderOf, BufferOf, StatusOf;
    IndexFacts(s);
    var s' := DoComplete(s, h);
    forall k: nat | s'.rings.d <= k < s'.rings.a
      ensures QueuedAt(s', k)
    {
      assert QueuedAt(s, k);
    }
    forall m: nat | s'.rings.v <= m < s'.rings.u
      ensures ReturnedAt(s', m)
    {
      if m < s.rings.u {
        assert ReturnedAt(s, m);
        SlotsApart(s, m);
      }
    }
  }

  /** The entry that the interrupt handler reads is a request whose buffer is on record and whose status is 0. */
  lemma InterruptReads(s: Sys)
    requires Inv(s) && Enabled(s, Interrupt)
    ensures var id := At(s.rings.used, s.rings.usedSeen % NUM);
            IsStage(s, id, Returned(s.rings.v)) && InfoAt(s, id) == Info(Some(s.reqs[id].b), true)
  {
    hide Apart, FreesOk;
    IndexFacts(s);
    assert ReturnedAt(s, s.rings.v);
    assert ReqOk(s, At(s.rings.used, s.rings.usedSeen % NUM));
  }

  lemma InterruptStage(s: Sys, h: nat, g: nat)
    requires Inv(s) && Enabled(s, Interrupt) && g in s.reqs
    requires h == At(s.rings.used, s.rings.usedSeen % NUM)
    ensures var s' := DoInterrupt(s); Sizes(s') && g in s'.reqs && StageOk(s', g, s'.reqs[g])
  {
    hide FreesOk, ReqsOk, EntriesOk;
    IndexFacts(s);
    InterruptReads(s);
    StageOf(s, h);
    StageOf(s, g);
    assert g != h ==> Strangers(g, s.reqs[g], h, s.reqs[h]);
  }

  lemma InterruptKeeps(s: Sys)
    requires Inv(s) && Enabled(s, Interrupt)
    ensures Inv(DoInterrupt(s))
  {
    hide FreesOk, ReqsOk, Apart, StageOk;
    IndexFacts(s);
    InterruptReads(s);
    var s', h := DoInterrupt(s), s.rings.used[s.rings.v % NUM];
    forall k: nat | s'.rings.d <= k < s'.rings.a
      ensures QueuedAt(s', k)
    {
      assert QueuedAt(s, k);
    }
    forall m: nat | s'.rings.v <= m < s'.rings.u
      ensures ReturnedAt(s', m)
    {
      assert ReturnedAt(s, m);
    }
    forall g | g in s'.reqs
      ensures StageOk(s', g, s'.reqs[g])
    {
      InterruptStage(s, h, g);
    }
    AdvancesKeeps(s, s', h, Done);
  }

  // Finish.

  /** free_chain, following the links, reaches the three descriptors of the request, all of them in use. */
  lemma FinishChain(s: Sys, h: nat)
    requires Inv(s) && h in s.reqs
    ensures h < |s.desc| && s.desc[h].next == s.reqs[h].mid < |s.desc| && s.desc[s.reqs[h].mid].next == s.reqs[h].last < |s.desc|
    ensures !s.free[h] && !s.free[s.reqs[h].mid] && !s.free[s.reqs[h].last]
    ensures s.desc[h].more && s.desc[s.reqs[h].mid].more && !s.desc[s.reqs[h].last].more
    ensures h != s.reqs[h].mid && h != s.reqs[h].last && s.reqs[h].mid != s.reqs[h].last
  {
    hide FreesOk, EntriesOk, Apart;
    assert ReqOk(s, h);
  }

  lemma FinishOtherChain(s: Sys, h: nat, r: Req, g: nat, q: Req)
    requires Sizes(s) && ChainOk(s, h, r) && ChainOk(s, g, q) && Strangers(h, r, g, q)
    ensures var s' := DoFinish(s, h); Sizes(s') && ChainOk(s', g, q)
  {
  }

  lemma ChainOf(s: Sys, g: nat)
    requires Inv(s) && g in s.reqs
    ensures ChainOk(s, g, s.reqs[g])
  {
    assert ReqOk(s, g);
  }

  lemma FinishOtherStage(s: Sys, h: nat, g: nat)
    requires Inv(s) && Enabled(s, Finish(h)) && g in s.reqs && g != h
    ensures var s' := DoFinish(s, h); Sizes(s') && StageOk(s', g, s.reqs[g])
  {
    hide FreesOk, EntriesOk, IndicesOk, Apart, ReqsOk;
    StageOf(s, g);
  }

  lemma FinishOther(s: Sys, h: nat, g: nat)
    requires Inv(s) && Enabled(s, Finish(h)) && g in s.reqs && g != h
    ensures var s' := DoFinish(s, h); Sizes(s') && g in s'.reqs && ReqOk(s', g)
  {
    hide FreesOk, EntriesOk, IndicesOk, ChainOk, StageOk, ReqsOk, Strangers;
    assert Strangers(h, s.reqs[h], g, s.reqs[g]);
    ChainOf(s, h);
    ChainOf(s, g);
    FinishOtherChain(s, h, s.reqs[h], g, s.reqs[g]);
    FinishOtherStage(s, h, g);
  }

  lemma FinishFrees(s: Sys, h: nat)
    requires Inv(s) && Enabled(s, Finish(h))
    ensures var s' := DoFinish(s, h); Sizes(s') && FreesOk(s')
  {
    hide EntriesOk, ReqsOk, Apart;
    var s' := DoFinish(s, h);
    FinishChain(s, h);
    forall i | 0 <= i < NUM && !s'.free[i]
      ensures Owned(s', i)
    {
      assert Owned(s, i) && !On(h, s.reqs[h], i);
      var g :| OwnedBy(s, i, g);
      assert OwnedBy(s', i, g);
    }
  }

  lemma FinishEntries(s: Sys, h: nat)
    requires Inv(s) && Enabled(s, Finish(h)) && IsStage(s, h, Done)
    ensures var s' := DoFinish(s, h); Sizes(s') && EntriesOk(s')
  {
    hide FreesOk, ReqsOk, Apart;
    var s' := DoFinish(s, h);
    forall k: nat | s'.rings.d <= k < s'.rings.a
      ensures QueuedAt(s', k)
    {
      assert QueuedAt(s, k);
    }
    forall m: nat | s'.rings.v <= m < s'.rings.u
      ensures ReturnedAt(s', m)
    {
      assert ReturnedAt(s, m);
    }
  }

  /** A caller whose buffer is no longer busy is one whose request is done. */
  lemma FinishDone(s: Sys, h: nat)
    requires Inv(s) && Enabled(s, Finish(h))
    ensures IsStage(s, h, Done)
  {
    hide FreesOk, EntriesOk, Apart;
    StageOf(s, h);
  }

  lemma FinishKeeps(s: Sys, h: nat)
    requires Inv(s) && Enabled(s, Finish(h))
    ensures Inv(DoFinish(s, h))
  {
    hide FreesOk, EntriesOk, ReqOk;
    var s' := DoFinish(s, h);
    FinishDone(s, h);
    FinishFrees(s, h);
    FinishEntries(s, h);
    forall g | g in s'.reqs
      ensures ReqOk(s', g)
    {
      FinishOther(s, h, g);
    }
  }

  lemma StoreReq(s: Sys, b: BufId, c: Content, g: nat)
    requires Sizes(s) && g in s.reqs && ReqOk(s, g)
    ensures var s' := s.(mem := s.mem[b := c]); Sizes(s') && ReqOk(s', g)
  {
  }

  lemma StoreRest(s: Sys, b: BufId, c: Content)
    requires Inv(s)
    ensures var s' := s.(mem := s.mem[b := c]); Sizes(s') && Apart(s') && EntriesOk(s') && FreesOk(s')
  {
    hide ReqsOk, Strangers;
    var s' := s.(mem := s.mem[b := c]);
    forall k: nat | s'.rings.d <= k < s'.rings.a
      ensures QueuedAt(s', k)
    {
      assert QueuedAt(s, k);
    }
    forall m: nat | s'.rings.v <= m < s'.rings.u
      ensures ReturnedAt(s', m)
    {
      assert ReturnedAt(s, m);
    }
    forall i | 0 <= i < NUM && !s'.free[i]
      ensures Owned(s', i)
    {
      assert Owned(s, i);
      var h :| OwnedBy(s, i, h);
      assert OwnedBy(s', i, h);
    }
  }

  lemma StoreKeeps(s: Sys, b: BufId, c: Content)
    requires Inv(s)
    ensures Inv(s.(mem := s.mem[b := c]))
  {
    hide Apart, EntriesOk, FreesOk, ReqOk;
    StoreRest(s, b, c);
    forall g | g in s.reqs
      ensures ReqOk(s.(mem := s.mem[b := c]), g)
    {
      StoreReq(s, b, c, g);
    }
  }

  lemma StepInv(s: Sys, step: Step)
    requires Inv(s) && Enabled(s, step)
    ensures Inv(Do(s, step))
  {
    hide Inv, DoSubmit, DoPublish, DoTake, DoComplete, DoInterrupt, DoFinish;
    match step {
      case Submit(b, op, i0, i1, i2) => SubmitKeeps(s, b, op, i0, i1, i2);
      case Publish => PublishKeeps(s);
      case Take => TakeKeeps(s);
      case Complete(h) => CompleteKeeps(s, h);
      case Interrupt => InterruptKeeps(s);
      case Finish(h) => FinishKeeps(s, h);
      case Store(b, c) => StoreKeeps(s, b, c);
    }
  }

  // The life of a request.

  /** The device has carried it out. */
  predicate CarriedOut(stage: Stage) {
    stage.Returned? || stage.Done?
  }

  /** The device carries out exactly what was asked: one block, in the right direction, between the right places. */
  lemma CompleteDoes(s: Sys, h: nat)
    requires Inv(s) && Enabled(s, Complete(h))
    ensures h in s.reqs && s.reqs[h].stage == Taken
    ensures var s', r := DoComplete(s, h), s.reqs[h];
            && s'.reqs == s.reqs[h := r.(stage := Returned(s.rings.u))]
            && r.b in s.mem && r.op.sector in s.disk
            && s'.disk == (if r.op.write then s.disk[r.op.sector := s.mem[r.b]] else s.disk)
            && s'.mem == (if r.op.write then s.mem else s.mem[r.b := s.disk[r.op.sector]])
  {
    hide Apart, FreesOk, ReqsOk, HeaderOf, BufferOf, StatusOf;
    assert IsStage(s, h, Taken);
    DeviceReads(s, h);
  }

  /** What any step but its own completion and end does to a request: it stays, and its buffer is left alone. */
  lemma LifeStep(s: Sys, step: Step, h: nat)
    requires Inv(s) && Enabled(s, step) && h in s.reqs && step != Complete(h) && step != Finish(h)
    ensures var s' := Do(s, step);
            && h in s'.reqs && s'.reqs[h].b == s.reqs[h].b && s'.reqs[h].op == s.reqs[h].op
            && (CarriedOut(s'.reqs[h].stage) <==> CarriedOut(s.reqs[h].stage))
            && s.reqs[h].b in s.mem && s.reqs[h].b in s'.mem && s'.mem[s.reqs[h].b] == s.mem[s.reqs[h].b]
  {
    hide FreesOk, ReqsOk, Strangers, DoSubmit, DoPublish, DoTake, DoComplete, DoInterrupt, DoFinish;
    DeviceReads(s, h);
    match step {
      case Submit(b, op, i0, i1, i2) =>
        SubmitStranger(s, b, op, i0, i1, i2, h);
        SubmitLeaves(s, b, op, i0, i1, i2, h);
      case Complete(g) =>
        CompleteDoes(s, g);
        BuffersDiffer(s, h, g);
      case Store(b, c) =>
      case _ => MovesOn(s, step, h);
    }
  }

  lemma SubmitLeaves(s: Sys, b: BufId, op: Op, i0: nat, i1: nat, i2: nat, h: nat)
    requires h in s.reqs && h != i0
    ensures var s' := DoSubmit(s, b, op, i0, i1, i2); h in s'.reqs && s'.reqs[h] == s.reqs[h] && s'.mem == s.mem
  {
  }

  lemma BuffersDiffer(s: Sys, h: nat, g: nat)
    requires Inv(s) && h in s.reqs && g in s.reqs && h != g
    ensures s.reqs[h].b != s.reqs[g].b
  {
    assert Strangers(h, s.reqs[h], g, s.reqs[g]);
  }

  lemma MovesOn(s: Sys, step: Step, h: nat)
    requires Inv(s) && Enabled(s, step) && h in s.reqs && step != Finish(h)
    requires step.Publish? || step.Take? || step.Interrupt? || step.Finish?
    ensures var s' := Do(s, step);
            && s'.mem == s.mem && h in s'.reqs && s'.reqs[h] == s.reqs[h].(stage := s'.reqs[h].stage)
            && (CarriedOut(s'.reqs[h].stage) <==> CarriedOut(s.reqs[h].stage))
  {
    hide FreesOk, ReqsOk, Apart;
    if step.Interrupt? {
      InterruptReads(s);
    } else if step.Take? {
      IndexFacts(s);
      assert QueuedAt(s, s.rings.d);
    }
  }

  // Runs.

  ghost predicate Init(s: Sys) {
    && Sizes(s)
    && (forall i :: 0 <= i < NUM ==> s.free[i])
    && s.reqs == map[] && s.working == {} && s.busy == {} && s.lock == None
    && s.rings == Rings(s.rings.avail, 0, 0, s.rings.used, 0, 0, 0, 0, 0, 0)
  }

  ghost predicate Goes(s: Sys, step: Step, s': Sys) {
    Enabled(s, step) && s' == Do(s, step)
  }

  ghost predicate Run(run: seq<Sys>, steps: seq<Step>) {
    && |run| == |steps| + 1
    && Init(run[0])
    && forall i :: 0 <= i < |steps| ==> Goes(run[i], steps[i], run[i + 1])
  }

  lemma InitInv(s: Sys)
    requires Init(s)
    ensures Inv(s)
  {
  }

  lemma {:induction false} RunInv(run: seq<Sys>, steps: seq<Step>, i: nat)
    requires Run(run, steps) && i < |run|
    ensures Inv(run[i])
  {
    hide Inv, Do, Enabled;
    if i == 0 {
      InitInv(run[0]);
    } else {
      RunInv(run, steps, i - 1);
      assert Goes(run[i - 1], steps[i - 1], run[i - 1 + 1]);
      StepInv(run[i - 1], steps[i - 1]);
    }
  }

  /** Each descriptor is free, or in the chain of exactly one request; and there are at most two requests. */
  lemma DescriptorsPartition(run: seq<Sys>, steps: seq<Step>, i: nat)
    requires Run(run, steps) && i < NUM
    ensures var s := run[|steps|];
            && |s.reqs| <= 2 && i < |s.free|
            && (s.free[i] <==> !Owned(s, i))
            && (forall h, g :: OwnedBy(s, i, h) && OwnedBy(s, i, g) ==> h == g)
  {
    hide Inv, Init, OwnedBy, Owned;
    RunInv(run, steps, |steps|);
    Partition(run[|steps|], i);
  }

  lemma Partition(s: Sys, i: nat)
    requires Inv(s) && i < NUM
    ensures |s.reqs| <= 2 && i < |s.free|
    ensures s.free[i] <==> !Owned(s, i)
    ensures forall h, g :: OwnedBy(s, i, h) && OwnedBy(s, i, g) ==> h == g
  {
    hide EntriesOk, ReqsOk;
    AtMostTwo(s);
    forall h | OwnedBy(s, i, h)
      ensures !s.free[i]
    {
      FinishChain(s, h);
    }
    forall h, g | OwnedBy(s, i, h) && OwnedBy(s, i, g)
      ensures h == g
    {
    }
  }

  /** No entry of either ring is overwritten before its reader has seen it. */
  lemma NoOverwrite(run: seq<Sys>, steps: seq<Step>, k: nat)
    requires Run(run, steps)
    ensures var r := run[|steps|].rings;
            && r.a - r.d <= 2 && r.u - r.v <= 2
            && r.availIdx % NUM == r.a % NUM && r.usedIdx % NUM == r.u % NUM
            && (r.d <= k < r.a ==> k % NUM != r.a % NUM)
            && (r.v <= k < r.u ==> k % NUM != r.u % NUM)
  {
    RunInv(run, steps, |steps|);
    RingsFit(run[|steps|]);
    IndexFacts(run[|steps|]);
    SlotsApart(run[|steps|], k);
  }

  /** virtio_disk_intr finds a status of 0 and a buffer that some caller waits for; it never panics. */
  lemma InterruptSafe(run: seq<Sys>, steps: seq<Step>)
    requires Run(run, steps) && Enabled(run[|steps|], Interrupt)
    ensures var s := run[|steps|];
            var id := At(s.rings.used, s.rings.usedSeen % NUM);
            && id < NUM && id in s.reqs && InfoAt(s, id) == Info(Some(s.reqs[id].b), true)
            && s.reqs[id].b in s.busy
  {
    RunInv(run, steps, |steps|);
    var s := run[|steps|];
    InterruptReads(s);
    StageOf(s, At(s.rings.used, s.rings.usedSeen % NUM));
    ChainOf(s, At(s.rings.used, s.rings.usedSeen % NUM));
  }

  /** free_chain frees exactly the three descriptors of the request, none of them free already: free_desc never panics. */
  lemma FreeChainSafe(run: seq<Sys>, steps: seq<Step>, h: nat)
    requires Run(run, steps) && Enabled(run[|steps|], Finish(h))
    ensures var s := run[|steps|]; IsChain(s.free, s.desc, h, s.reqs[h].mid, s.reqs[h].last)
  {
    RunInv(run, steps, |steps|);
    ChainOf(run[|steps|], h);
  }

  /** h, i and j are allocated and linked, and j is the end. */
  predicate IsChain(free: seq<bool>, desc: seq<Desc>, h: nat, i: nat, j: nat) {
    && |free| == |desc| == NUM && h < NUM && i < NUM && j < NUM && h != i && h != j && i != j
    && !free[h] && !free[i] && !free[j]
    && desc[h].more && desc[h].next == i && desc[i].more && desc[i].next == j && !desc[j].more
  }

  /** How often the device carries out the chain at h in the steps from lo to hi. */
  function Completions(steps: seq<Step>, lo: nat, hi: nat, h: nat): nat
    requires lo <= hi <= |steps|
  {
    if lo == hi then 0 else Completions(steps, lo, hi - 1, h) + (if steps[hi - 1] == Complete(h) then 1 else 0)
  }

  /** Request h, submitted in step i, has not ended by step m. */
  ghost predicate Lives(steps: seq<Step>, i: nat, m: nat, h: nat) {
    && i < m <= |steps|
    && steps[i].Submit? && steps[i].i0 == h
    && forall n :: i < n < m ==> steps[n] != Finish(h)
  }

  /** The transfer has happened at step c: the disk has what the buffer held, or the buffer what the disk held. */
  ghost predicate Transferred(run: seq<Sys>, steps: seq<Step>, i: nat, c: nat, m: nat, h: nat) {
    && |run| == |steps| + 1 && i < c < m <= |steps| && steps[i].Submit? && steps[c] == Complete(h)
    && var b, op := steps[i].b, steps[i].op;
    && b in run[i].mem && b in run[m].mem && op.sector in run[c].disk && op.sector in run[c + 1].disk
    && (op.write ==> run[c + 1].disk == run[c].disk[op.sector := run[i].mem[b]] && run[m].mem[b] == run[i].mem[b])
    && (!op.write ==> run[c + 1].disk == run[c].disk && run[m].mem[b] == run[c].disk[op.sector])
  }

  ghost predicate Progress(run: seq<Sys>, steps: seq<Step>, i: nat, m: nat, h: nat)
    requires Run(run, steps) && Lives(steps, i, m, h)
  {
    var s, b, op := run[m], steps[i].b, steps[i].op;
    && h in s.reqs && s.reqs[h].b == b && s.reqs[h].op == op
    && b in s.mem && b in run[i].mem
    && Completions(steps, i + 1, m, h) == (if CarriedOut(s.reqs[h].stage) then 1 else 0)
    && (if CarriedOut(s.reqs[h].stage) then exists c :: Transferred(run, steps, i, c, m, h) else s.mem[b] == run[i].mem[b])
  }

  lemma ProgressStarts(run: seq<Sys>, steps: seq<Step>, i: nat, h: nat)
    requires Run(run, steps) && Lives(steps, i, i + 1, h)
    ensures Progress(run, steps, i, i + 1, h)
  {
    hide IsFree;
    assert Goes(run[i], steps[i], run[i + 1]);
  }

  lemma ProgressStep(run: seq<Sys>, steps: seq<Step>, i: nat, m: nat, h: nat)
    requires Run(run, steps) && Lives(steps, i, m + 1, h) && i < m && Progress(run, steps, i, m, h)
    ensures Progress(run, steps, i, m + 1, h)
  {
    hide Inv, Enabled, Do, Init;
    RunInv(run, steps, m);
    assert Goes(run[m], steps[m], run[m + 1]);
    if steps[m] == Complete(h) {
      ProgressCompletes(run, steps, i, m, h);
    } else {
      LifeStep(run[m], steps[m], h);
      if CarriedOut(run[m].reqs[h].stage) {
        var c :| Transferred(run, steps, i, c, m, h);
        assert Transferred(run, steps, i, c, m + 1, h);
      }
    }
  }

  lemma ProgressCompletes(run: seq<Sys>, steps: seq<Step>, i: nat, m: nat, h: nat)
    requires Run(run, steps) && Lives(steps, i, m + 1, h) && i < m && Progress(run, steps, i, m, h)
    requires steps[m] == Complete(h) && Inv(run[m]) && Goes(run[m], steps[m], run[m + 1])
    ensures Progress(run, steps, i, m + 1, h)
  {
    hide Inv, Enabled, Init, DoComplete;
    CompleteDoes(run[m], h);
    assert Transferred(run, steps, i, m, m + 1, h);
  }

  lemma {:induction false} ProgressHolds(run: seq<Sys>, steps: seq<Step>, i: nat, m: nat, h: nat)
    requires Run(run, steps) && Lives(steps, i, m, h)
    ensures Progress(run, steps, i, m, h)
    decreases m - i
  {
    hide Progress, Run;
    if m == i + 1 {
      ProgressStarts(run, steps, i, h);
    } else {
      ProgressHolds(run, steps, i, m - 1, h);
      ProgressStep(run, steps, i, m - 1, h);
    }
  }

  /**
   When a call of virtio_disk_rw that began in step i returns, in step j, the device has carried out its request exactly
   once in between, and the block has been copied: to the disk as it was in the buffer when the call was made, or
   into the buffer as it was on the disk.
   */
  lemma ExactlyOnce(run: seq<Sys>, steps: seq<Step>, i: nat, j: nat, h: nat)
    requires Run(run, steps) && Lives(steps, i, j, h) && j < |steps| && steps[j] == Finish(h)
    ensures Completions(steps, i + 1, j, h) == 1
    ensures exists c :: Transferred(run, steps, i, c, j, h)
  {
    hide Inv, Do, Enabled;
    ProgressHolds(run, steps, i, j, h);
    RunInv(run, steps, j);
    assert Goes(run[j], steps[j], run[j + 1]);
    FinishDone(run[j], h);
  }

  // The descriptor pool's code.

  ghost predicate FewFree(free: seq<bool>) {
    !exists i, j, k :: 0 <= i < j < k < |free| && free[i] && free[j] && free[k]
  }

  class Pool {
    var free: seq<bool>
    var desc: seq<Desc>

    constructor ()
      ensures |free| == |desc| == NUM && forall i :: 0 <= i < NUM ==> free[i]
    {
      free, desc := seq(NUM, _ => true), seq(NUM, _ => ZERO);
    }

    /** alloc_desc: the lowest free descriptor, or -1. */
    method AllocDesc() returns (i: int)
      requires |free| == NUM
      modifies this`free
      ensures -1 <= i < NUM && |free| == NUM
      ensures i == -1 ==> free == old(free) && forall k :: 0 <= k < NUM ==> !free[k]
      ensures i >= 0 ==> old(free)[i] && free == old(free)[i := false] && forall k :: 0 <= k < i ==> !free[k]
    {
      i := 0;
      while i < NUM
        invariant 0 <= i <= NUM && free == old(free)
        invariant forall k :: 0 <= k < i ==> !free[k]
      {
        if free[i] {
          free := free[i := false];
          return i;
        }
        i := i + 1;
      }
      return -1;
    }

    /** free_desc, past its panics. */
    method FreeDesc(i: nat)
      requires |free| == |desc| == NUM && i < NUM && !free[i]
      modifies this
      ensures free == old(free)[i := true] && desc == old(desc)[i := ZERO]
    {
      desc := desc[i := ZERO];
      free := free[i := true];
    }

    /** free_chain. */
    method FreeChain(h: nat, ghost i: nat, ghost j: nat)
      requires IsChain(free, desc, h, i, j)
      modifies this
      ensures free == old(free)[h := true][i := true][j := true] && desc == old(desc)[h := ZERO][i := ZERO][j := ZERO]
    {
      var at := h;
      ghost var left := 2;
      while true
        invariant 0 <= left <= 2 && |free| == |desc| == NUM
        invariant at == if left == 2 then h else if left == 1 then i else j
        invariant free == if left == 2 then old(free) else if left == 1 then old(free)[h := true] else old(free)[h := true][i := true]
        invariant desc == if left == 2 then old(desc) else if left == 1 then old(desc)[h := ZERO] else old(desc)[h := ZERO][i := ZERO]
        decreases left
      {
        var more, next := desc[at].more, desc[at].next;
        FreeDesc(at);
        if !more {
          break;
        }
        at := next;
        left := left - 1;
      }
    }

    /** alloc3_desc: three descriptors, or none and the pool as it was, because there are not three. */
    method Alloc3() returns (ok: bool, i0: int, i1: int, i2: int)
      requires |free| == |desc| == NUM
      modifies this
      ensures |free| == |desc| == NUM
      ensures ok ==> 0 <= i0 < i1 < i2 < NUM && old(free)[i0] && old(free)[i1] && old(free)[i2]
      ensures ok ==> free == old(free)[i0 := false][i1 := false][i2 := false] && desc == old(desc)
      ensures !ok ==> free == old(free) && FewFree(free)
    {
      i0, i1, i2 := -1, -1, -1;
      i0 := AllocDesc();
      if i0 < 0 {
        return false, i0, i1, i2;
      }
      i1 := AllocDesc();
      if i1 < 0 {
        FreeDesc(i0);
        assert free == old(free);
        return false, i0, i1, i2;
      }
      i2 := AllocDesc();
      if i2 < 0 {
        FreeDesc(i0);
        FreeDesc(i1);
        assert free == old(free);
        return false, i0, i1, i2;
      }
      return true, i0, i1, i2;
    }
  }
}

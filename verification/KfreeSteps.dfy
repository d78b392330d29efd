/**
 kfree on several CPUs at once. kfree of kernel/kalloc.c takes two locks one after the other: it tests and
 lowers the page's COW count under the page's lock, and only later pushes the page on the free list under
 the list's lock. Threads of the kernel interleave between the two, and between kfree and the clearing of
 the PTE in uvmunmap. In every such interleaving no frame is lost, freed twice, or freed while in use.
 */
module KfreeSteps {
  import opened Collections

  type Thread = nat
  type Frame = nat

  /** A leaf PTE: a page of a process's address space. */
  datatype Key = Key(pid: nat, page: nat)

  /**
   Where a thread is. Dropping: about to enter kfree(f), for the given PTE if kfree runs before the PTE is
   cleared. Limbo: kfree has seen count 0 and has not yet pushed f. Clearing: kfree is done, the PTE is not.
   */
  datatype Pc =
    | Idle
    | Dropping(f: Frame, pte: Option<Key>)
    | Limbo(f: Frame, pte: Option<Key>)
    | Clearing(k: Key)

  /** owns says which thread runs on behalf of a process: its own, or its parent's in fork and wait. */
  datatype Sys = Sys(
    freelist: seq<Frame>,
    count: map<Frame, int>,
    leaf: map<Key, Frame>,
    kernel: set<Frame>,
    pc: map<Thread, Pc>,
    owns: map<nat, Thread>
  )

  datatype Step =
    | Alloc(t: Thread)
    | Map(t: Thread, k: Key, f: Frame)
    | Share(t: Thread, k: Key, c: Key)
    | Replace(t: Thread, k: Key, f: Frame)
    | Unmap(t: Thread, k: Key)
    | Give(t: Thread, f: Frame)
    | Lower(t: Thread)
    | Push(t: Thread)
    | Clear(t: Thread)
    | Handover(t: Thread, pid: nat, t': Thread)

  predicate At(s: Sys, t: Thread, pc: Pc) {
    t in s.pc && s.pc[t] == pc
  }

  /** Thread t is between operations and runs on behalf of the process of k. */
  predicate Ready(s: Sys, t: Thread, k: Key) {
    At(s, t, Idle) && k.pid in s.owns && s.owns[k.pid] == t
  }

  function Return(pte: Option<Key>): Pc {
    if pte.None? then Idle else Clearing(pte.value)
  }

  predicate Enabled(s: Sys, step: Step) {
    match step
    case Alloc(t) => At(s, t, Idle) && s.freelist != []
    case Map(t, k, f) => Ready(s, t, k) && k !in s.leaf && f in s.kernel
    case Share(t, k, c) => Ready(s, t, k) && Ready(s, t, c) && k in s.leaf && c !in s.leaf && s.leaf[k] in s.count
    case Replace(t, k, f) => Ready(s, t, k) && k in s.leaf && f in s.kernel
    case Unmap(t, k) => Ready(s, t, k) && k in s.leaf
    case Give(t, f) => At(s, t, Idle) && f in s.kernel
    case Lower(t) => t in s.pc && s.pc[t].Dropping? && s.pc[t].f in s.count
    case Push(t) => t in s.pc && s.pc[t].Limbo?
    case Clear(t) => t in s.pc && s.pc[t].Clearing?
    case Handover(t, pid, t') => At(s, t, Idle) && pid in s.owns && s.owns[pid] == t
  }

  /**
   One step. Alloc: kalloc. Map: mappages of a page the kernel holds. Share: cowmappage. Replace: dup_pg's
   change of PTE, before its kfree. Unmap: uvmunmap reaching PTE k. Give: kfree of a page the kernel holds.
   Lower and Push: the two halves of kfree. Clear: uvmunmap zeroing the PTE.
   */
  function Do(s: Sys, step: Step): Sys
    requires Enabled(s, step)
  {
    match step
    case Alloc(t) =>
      var f := s.freelist[0];
      s.(freelist := s.freelist[1..], count := s.count[f := 0], kernel := s.kernel + {f})
    case Map(t, k, f) => s.(leaf := s.leaf[k := f], kernel := s.kernel - {f})
    case Share(t, k, c) => s.(leaf := s.leaf[c := s.leaf[k]], count := s.count[s.leaf[k] := s.count[s.leaf[k]] + 1])
    case Replace(t, k, f) =>
      s.(leaf := s.leaf[k := f], kernel := s.kernel - {f}, pc := s.pc[t := Dropping(s.leaf[k], None)])
    case Unmap(t, k) => s.(pc := s.pc[t := Dropping(s.leaf[k], Some(k))])
    case Give(t, f) => s.(kernel := s.kernel - {f}, pc := s.pc[t := Dropping(f, None)])
    case Lower(t) =>
      var f, pte := s.pc[t].f, s.pc[t].pte;
      if s.count[f] > 0 then s.(count := s.count[f := s.count[f] - 1], pc := s.pc[t := Return(pte)])
      else s.(pc := s.pc[t := Limbo(f, pte)])
    case Push(t) => s.(freelist := [s.pc[t].f] + s.freelist, pc := s.pc[t := Return(s.pc[t].pte)])
    case Clear(t) => s.(leaf := s.leaf - {s.pc[t].k}, pc := s.pc[t := Idle])
    case Handover(t, pid, t') => s.(owns := s.owns[pid := t'])
  }

  ghost predicate Next(s: Sys, s': Sys) {
    exists step :: Enabled(s, step) && s' == Do(s, step)
  }

  // The invariant.

  function PteOf(pc: Pc): Option<Key> {
    match pc
    case Idle => None
    case Dropping(_, pte) => pte
    case Limbo(_, pte) => pte
    case Clearing(k) => Some(k)
  }

  predicate Passed(pc: Pc) {
    pc.Limbo? || pc.Clearing?
  }

  /** PTE k still names a frame but its reference has already been given up. */
  predicate Stale(s: Sys, k: Key) {
    && k.pid in s.owns
    && s.owns[k.pid] in s.pc
    && Passed(s.pc[s.owns[k.pid]])
    && PteOf(s.pc[s.owns[k.pid]]) == Some(k)
  }

  /** A counted reference to a frame: a PTE, or a thread that has yet to drop one. */
  datatype Claim = ByPte(k: Key) | ByThread(t: Thread)

  predicate Claims(s: Sys, c: Claim, f: Frame) {
    match c
    case ByPte(k) => k in s.leaf && s.leaf[k] == f && !Stale(s, k)
    case ByThread(t) => At(s, t, Dropping(f, None))
  }

  ghost function ClaimsOn(s: Sys, f: Frame): set<Claim> {
    (set k | k in s.leaf && Claims(s, ByPte(k), f) :: ByPte(k)) +
    (set t | t in s.pc && Claims(s, ByThread(t), f) :: ByThread(t))
  }

  lemma ClaimsOnMeans(s: Sys, f: Frame)
    ensures forall c :: c in ClaimsOn(s, f) <==> Claims(s, c, f)
  {
  }

  predicate InLimbo(s: Sys, t: Thread, f: Frame) {
    t in s.pc && s.pc[t].Limbo? && s.pc[t].f == f
  }

  ghost predicate SomeLimbo(s: Sys, f: Frame) {
    exists t :: InLimbo(s, t, f)
  }

  /** Exactly one of: on the free list, held by the kernel, between the halves of kfree. */
  ghost predicate InOnePlace(s: Sys, f: Frame) {
    && (f in s.freelist ==> f !in s.kernel && !SomeLimbo(s, f))
    && (f in s.kernel ==> !SomeLimbo(s, f))
    && (f in s.freelist || f in s.kernel || SomeLimbo(s, f))
  }

  ghost predicate FrameOk(s: Sys, f: Frame) {
    && f in s.count
    && if ClaimsOn(s, f) == {}
       then s.count[f] == 0 && InOnePlace(s, f)
       else |ClaimsOn(s, f)| == s.count[f] + 1 && f !in s.freelist && f !in s.kernel && !SomeLimbo(s, f)
  }

  /** A thread inside uvmunmap works on a PTE of its own process, and before kfree that PTE names the frame. */
  ghost predicate ThreadOk(s: Sys, t: Thread)
    requires t in s.pc
  {
    var pte := PteOf(s.pc[t]);
    pte.Some? ==>
      && pte.value in s.leaf
      && pte.value.pid in s.owns
      && s.owns[pte.value.pid] == t
      && (s.pc[t].Dropping? ==> s.leaf[pte.value] == s.pc[t].f)
  }

  ghost predicate ListOk(s: Sys) {
    && (forall i, j :: 0 <= i < j < |s.freelist| ==> s.freelist[i] != s.freelist[j])
    && (forall t, t', f :: InLimbo(s, t, f) && InLimbo(s, t', f) ==> t == t')
  }

  ghost predicate NamesKnown(s: Sys) {
    && (forall k :: k in s.leaf ==> s.leaf[k] in s.count)
    && (forall f :: f in s.kernel ==> f in s.count)
    && (forall f :: f in s.freelist ==> f in s.count)
    && (forall t :: t in s.pc && (s.pc[t].Dropping? || s.pc[t].Limbo?) ==> s.pc[t].f in s.count)
  }

  /** Every frame that kinit freed is accounted for. */
  ghost predicate FramesOk(s: Sys) {
    forall f :: f in s.count ==> FrameOk(s, f)
  }

  ghost predicate RestOk(s: Sys) {
    && ListOk(s)
    && NamesKnown(s)
    && (forall t :: t in s.pc ==> ThreadOk(s, t))
  }

  ghost predicate Inv(s: Sys) {
    FramesOk(s) && RestOk(s)
  }

  // Each step keeps it.

  /** The claims on f change by exactly gone and came. */
  ghost predicate Changes(s: Sys, s': Sys, f: Frame, gone: set<Claim>, came: set<Claim>) {
    && (forall c :: c in gone ==> Claims(s, c, f))
    && (forall c :: c in came ==> !Claims(s, c, f))
    && (forall c :: Claims(s', c, f) <==> c in came || (Claims(s, c, f) && c !in gone))
  }

  lemma ChangesCount(s: Sys, s': Sys, f: Frame, gone: set<Claim>, came: set<Claim>)
    requires Changes(s, s', f, gone, came)
    ensures ClaimsOn(s', f) == ClaimsOn(s, f) - gone + came
    ensures |ClaimsOn(s', f)| == |ClaimsOn(s, f)| - |gone| + |came|
  {
    ClaimsOnMeans(s, f);
    ClaimsOnMeans(s', f);
    assert ClaimsOn(s', f) == ClaimsOn(s, f) - gone + came;
    assert gone <= ClaimsOn(s, f) && came !! ClaimsOn(s, f);
  }

  function Gone(s: Sys, step: Step, f: Frame): set<Claim>
    requires Enabled(s, step)
  {
    match step
    case Replace(t, k, _) => if f == s.leaf[k] then {ByPte(k)} else {}
    case Lower(t) =>
      if f != s.pc[t].f then {} else if s.pc[t].pte.None? then {ByThread(t)} else {ByPte(s.pc[t].pte.value)}
    case _ => {}
  }

  function Came(s: Sys, step: Step, f: Frame): set<Claim>
    requires Enabled(s, step)
  {
    match step
    case Map(t, k, g) => if f == g then {ByPte(k)} else {}
    case Share(t, k, c) => if f == s.leaf[k] then {ByPte(c)} else {}
    case Replace(t, k, g) => if f == g then {ByPte(k)} else if f == s.leaf[k] then {ByThread(t)} else {}
    case Give(t, g) => if f == g then {ByThread(t)} else {}
    case _ => {}
  }

  lemma StaleAfter(s: Sys, step: Step, k: Key)
    requires RestOk(s) && Enabled(s, step)
    ensures Stale(Do(s, step), k) <==>
            || (step.Lower? && s.pc[step.t].pte == Some(k))
            || (Stale(s, k) && !(step.Clear? && s.pc[step.t].k == k))
  {
    hide ListOk, NamesKnown;
    if k.pid in s.owns && s.owns[k.pid] in s.pc {
      assert ThreadOk(s, s.owns[k.pid]);
    }
    if step.Lower? || step.Clear? {
      assert ThreadOk(s, step.t);
    }
    if step.Handover? && step.t' in s.pc {
      assert ThreadOk(s, step.t');
    }
  }

  /** A page the kernel holds is not mapped. */
  lemma HeldUnmapped(s: Sys, f: Frame)
    requires Inv(s) && f in s.kernel
    ensures forall c :: !Claims(s, c, f)
  {
    assert FrameOk(s, f);
    ClaimsOnMeans(s, f);
  }

  /** Only a thread inside uvmunmap has a stale PTE, and only the one it is at. */
  lemma StaleBefore(s: Sys, step: Step)
    requires RestOk(s) && Enabled(s, step)
    ensures step.Map? || step.Replace? ==> !Stale(s, step.k)
    ensures step.Share? ==> !Stale(s, step.c) && !Stale(s, step.k)
    ensures step.Lower? && s.pc[step.t].pte.Some? ==>
              var k := s.pc[step.t].pte.value; k in s.leaf && s.leaf[k] == s.pc[step.t].f && !Stale(s, k)
    ensures step.Clear? ==> Stale(s, s.pc[step.t].k)
  {
    if step.Lower? || step.Clear? {
      assert ThreadOk(s, step.t);
    }
  }

  lemma StepChanges(s: Sys, step: Step, f: Frame)
    requires Inv(s) && Enabled(s, step)
    ensures Changes(s, Do(s, step), f, Gone(s, step, f), Came(s, step, f))
  {
    hide FramesOk, ListOk, NamesKnown, Stale;
    var s' := Do(s, step);
    StaleBefore(s, step);
    if step.Map? || step.Replace? || step.Give? {
      HeldUnmapped(s, step.f);
    }
    if step.Replace? {
      assert !Claims(s, ByPte(step.k), step.f) && Claims(s, ByPte(step.k), s.leaf[step.k]);
    }
    forall c
      ensures Claims(s', c, f) <==> c in Came(s, step, f) || (Claims(s, c, f) && c !in Gone(s, step, f))
    {
      if c.ByPte? {
        StaleAfter(s, step, c.k);
      }
    }
  }

  lemma LimboAfter(s: Sys, step: Step, f: Frame)
    requires RestOk(s) && Enabled(s, step)
    ensures SomeLimbo(Do(s, step), f) <==>
            || (step.Lower? && s.pc[step.t].f == f && s.count[f] <= 0)
            || (SomeLimbo(s, f) && !(step.Push? && s.pc[step.t].f == f))
  {
    var s' := Do(s, step);
    assert forall t :: InLimbo(s', t, f) <==>
             || (step.Lower? && t == step.t && s.pc[t].f == f && s.count[f] <= 0)
             || (InLimbo(s, t, f) && !(step.Push? && t == step.t));
    if step.Push? {
      assert InLimbo(s, step.t, s.pc[step.t].f);
    }
  }

  /** What the step relies on about the frame it is about. */
  lemma FrameBefore(s: Sys, step: Step)
    requires Inv(s) && Enabled(s, step)
    ensures step.Share? ==> ClaimsOn(s, s.leaf[step.k]) != {}
    ensures step.Replace? ==> s.leaf[step.k] != step.f && ClaimsOn(s, s.leaf[step.k]) != {}
    ensures step.Lower? ==> ClaimsOn(s, s.pc[step.t].f) != {}
    ensures step.Push? ==> SomeLimbo(s, s.pc[step.t].f)
    ensures step.Alloc? ==> s.freelist[0] in s.freelist && s.freelist[0] !in s.freelist[1..]
  {
    hide FrameOk;
    StaleBefore(s, step);
    if step.Share? || step.Replace? {
      ClaimsOnMeans(s, s.leaf[step.k]);
      assert Claims(s, ByPte(step.k), s.leaf[step.k]);
    }
    if step.Replace? {
      HeldUnmapped(s, step.f);
    }
    if step.Lower? {
      ClaimsOnMeans(s, s.pc[step.t].f);
      assert Claims(s, if s.pc[step.t].pte.None? then ByThread(step.t) else ByPte(s.pc[step.t].pte.value), s.pc[step.t].f);
    }
    if step.Push? {
      assert InLimbo(s, step.t, s.pc[step.t].f);
    }
  }

  /** A frame on which no claim comes or goes. */
  lemma QuietFrame(s: Sys, step: Step, f: Frame)
    requires Inv(s) && Enabled(s, step) && f in s.count
    requires Gone(s, step, f) == {} && Came(s, step, f) == {}
    ensures FrameOk(Do(s, step), f)
  {
    hide Claims, ClaimsOn, InLimbo, SomeLimbo, Changes, RestOk;
    assert FrameOk(s, f);
    StepChanges(s, step, f);
    ChangesCount(s, Do(s, step), f, Gone(s, step, f), Came(s, step, f));
    LimboAfter(s, step, f);
    FrameBefore(s, step);
  }

  /** A frame on which one does. */
  lemma BusyFrame(s: Sys, step: Step, f: Frame)
    requires Inv(s) && Enabled(s, step) && f in s.count
    requires Gone(s, step, f) != {} || Came(s, step, f) != {}
    ensures FrameOk(Do(s, step), f)
  {
    hide Claims, ClaimsOn, InLimbo, SomeLimbo, Changes, RestOk;
    assert FrameOk(s, f);
    StepChanges(s, step, f);
    ChangesCount(s, Do(s, step), f, Gone(s, step, f), Came(s, step, f));
    LimboAfter(s, step, f);
    FrameBefore(s, step);
  }

  lemma FrameKnown(s: Sys, step: Step)
    requires NamesKnown(s) && Enabled(s, step)
    ensures step.Lower? || step.Push? ==> s.pc[step.t].f in s.count
  {
  }

  lemma StepNames(s: Sys, step: Step)
    requires NamesKnown(s) && Enabled(s, step)
    ensures NamesKnown(Do(s, step))
  {
  }

  lemma StepLists(s: Sys, step: Step)
    requires Inv(s) && Enabled(s, step)
    ensures ListOk(Do(s, step))
  {
    hide ThreadOk, Claims, ClaimsOn, NamesKnown;
    assert NamesKnown(s);
    FrameKnown(s, step);
    var s' := Do(s, step);
    FrameBefore(s, step);
    if step.Lower? || step.Push? {
      assert FrameOk(s, s.pc[step.t].f);
    }
    forall t, t', f | InLimbo(s', t, f) && InLimbo(s', t', f)
      ensures t == t'
    {
      assert (step.Lower? && t == step.t) || InLimbo(s, t, f);
      assert (step.Lower? && t' == step.t) || InLimbo(s, t', f);
    }
  }

  lemma StepThread(s: Sys, step: Step, t: Thread)
    requires RestOk(s) && Enabled(s, step) && t in s.pc
    ensures ThreadOk(Do(s, step), t)
  {
    assert ThreadOk(s, t) && ThreadOk(s, step.t);
  }

  lemma StepInv(s: Sys, s': Sys)
    requires Inv(s) && Next(s, s')
    ensures Inv(s') && s'.count.Keys == s.count.Keys
  {
    hide ThreadOk, FrameOk, ListOk;
    var step :| Enabled(s, step) && s' == Do(s, step);
    StepNames(s, step);
    StepLists(s, step);
    forall t | t in s'.pc
      ensures ThreadOk(s', t)
    {
      StepThread(s, step, t);
    }
    forall f | f in s'.count
      ensures FrameOk(s', f)
    {
      if Gone(s, step, f) == {} && Came(s, step, f) == {} {
        QuietFrame(s, step, f);
      } else {
        BusyFrame(s, step, f);
      }
    }
  }

  // Runs.

  /** Boot: every frame is held by the kernel, uncounted, and no process has memory. */
  ghost predicate Init(s: Sys) {
    && s.freelist == []
    && s.leaf == map[]
    && s.kernel == s.count.Keys
    && (forall f :: f in s.count ==> s.count[f] == 0)
    && (forall t :: t in s.pc ==> s.pc[t] == Idle)
  }

  ghost predicate Run(run: seq<Sys>) {
    && run != []
    && Init(run[0])
    && forall i :: 0 <= i < |run| - 1 ==> Next(run[i], run[i + 1])
  }

  lemma InitInv(s: Sys)
    requires Init(s)
    ensures Inv(s)
  {
    forall f | f in s.count
      ensures FrameOk(s, f)
    {
      assert ClaimsOn(s, f) == {};
    }
  }

  lemma {:induction false} RunInv(run: seq<Sys>, i: nat)
    requires Run(run) && i < |run|
    ensures Inv(run[i]) && run[i].count.Keys == run[0].count.Keys
  {
    hide Inv, Next;
    if i == 0 {
      InitInv(run[0]);
    } else {
      RunInv(run, i - 1);
      assert Next(run[i - 1], run[i - 1 + 1]);
      StepInv(run[i - 1], run[i]);
    }
  }

  function Refs(leaf: map<Key, Frame>, f: Frame): set<Key> {
    set k | k in leaf && leaf[k] == f
  }

  ghost predicate Quiet(s: Sys) {
    forall t :: t in s.pc ==> s.pc[t] == Idle
  }

  /**
   Whenever no thread is inside the allocator, every frame is on the free list once and unmapped, or held by the
   kernel with count 0, or mapped by exactly count + 1 PTEs, whatever interleaving led there.
   */
  lemma QuietConservation(run: seq<Sys>, f: Frame)
    requires Run(run) && f in run[0].count && Quiet(run[|run| - 1])
    ensures var s := run[|run| - 1];
            && f in s.count
            && (forall i, j :: 0 <= i < j < |s.freelist| ==> s.freelist[i] != s.freelist[j])
            && if Refs(s.leaf, f) == {} then s.count[f] == 0 && (f in s.freelist <==> f !in s.kernel)
               else |Refs(s.leaf, f)| == s.count[f] + 1 && f !in s.freelist && f !in s.kernel
  {
    RunInv(run, |run| - 1);
    var s := run[|run| - 1];
    assert FrameOk(s, f);
    QuietClaims(s, f);
  }

  lemma QuietClaims(s: Sys, f: Frame)
    requires Quiet(s)
    ensures |ClaimsOn(s, f)| == |Refs(s.leaf, f)| && (ClaimsOn(s, f) == {} <==> Refs(s.leaf, f) == {})
    ensures !SomeLimbo(s, f)
  {
    assert ClaimsOn(s, f) == set k | k in Refs(s.leaf, f) :: ByPte(k);
    ByPteCount(Refs(s.leaf, f));
  }

  lemma {:induction false} ByPteCount(r: set<Key>)
    ensures |set k | k in r :: ByPte(k)| == |r|
    decreases |r|
  {
    if r != {} {
      var k :| k in r;
      ByPteCount(r - {k});
      assert (set k | k in r :: ByPte(k)) == (set k' | k' in r - {k} :: ByPte(k')) + {ByPte(k)};
    }
  }

  /**
   In every interleaving: kfree's panic on a negative count is unreachable, the frame it is about to push is
   nowhere else, and kalloc never takes a frame that a PTE or another thread still counts on.
   */
  lemma KfreeSafe(run: seq<Sys>, t: Thread)
    requires Run(run)
    ensures var s := run[|run| - 1];
            && (forall f :: f in s.count ==> s.count[f] >= 0)
            && (Enabled(s, Push(t)) ==> s.pc[t].f !in s.freelist && s.pc[t].f !in s.kernel && ClaimsOn(s, s.pc[t].f) == {})
            && (s.freelist != [] ==> ClaimsOn(s, s.freelist[0]) == {} && s.freelist[0] !in s.kernel)
  {
    RunInv(run, |run| - 1);
    var s := run[|run| - 1];
    forall f | f in s.count
      ensures s.count[f] >= 0
    {
      assert FrameOk(s, f);
    }
    if Enabled(s, Push(t)) {
      assert InLimbo(s, t, s.pc[t].f) && FrameOk(s, s.pc[t].f);
    }
    if s.freelist != [] {
      assert s.freelist[0] in s.freelist && FrameOk(s, s.freelist[0]);
    }
  }
}

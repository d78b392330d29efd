/**
 The priority-based scheduler of kernel/proc.c and sys_setpriority of kernel/sysproc.c: which process a scan selects, and
 how the priorities move over every run. A lower number is a higher priority.
 */
module Priority {
  import opened Collections

  const UINT: nat := 0x1_0000_0000
  const INT_LIMIT: nat := 0x8000_0000

  datatype State = Unused | Used | Sleeping | Runnable | Running | Zombie

  /** The fields of struct proc that take part; start is startTime, the local variable of scheduleProcess. */
  datatype Proc = Proc(
    state: State,
    pid: nat,
    sp: nat,
    dp: nat,
    rbi: nat,
    rtime: nat,
    stime: nat,
    wtime: nat,
    numScheduled: nat,
    ctime: nat,
    start: nat
  )

  // Priorities.

  /** The int that has the same 32 bits as the unsigned result x of an int expression. */
  function AsInt(x: int): int {
    if x % UINT < INT_LIMIT then x % UINT else x % UINT - UINT
  }

  /** C's division of int, which truncates; RISC-V yields -1 for a zero divisor. */
  function Truncated(a: int, b: int): int {
    if b == 0 then -1 else if (a >= 0) == (b > 0) then Abs(a) / Abs(b) else -(Abs(a) / Abs(b))
  }

  function Abs(a: int): nat {
    if a >= 0 then a else -a
  }

  /** calculate_rbi. */
  function CalculateRbi(rtime: nat, stime: nat, wtime: nat): int {
    var numerator := AsInt(3 * rtime - stime - wtime);
    var denominator := AsInt(rtime + wtime + stime + 1);
    var rbi := Truncated(numerator, denominator) * 50;
    if rbi > 0 then rbi else 0
  }

  predicate NoOverflow(rtime: nat, stime: nat, wtime: nat) {
    3 * rtime < INT_LIMIT && rtime + stime + wtime + 1 < INT_LIMIT
  }

  lemma AsIntSmall(x: int)
    requires -(INT_LIMIT as int) <= x < INT_LIMIT
    ensures AsInt(x) == x
  {
    if x >= 0 {
      assert x % UINT == x;
    } else {
      assert (x + UINT) % UINT == x % UINT;
    }
  }

  lemma MulAtLeast(d: int, b: nat)
    requires d >= 1 && b > 0
    ensures d * b >= b
  {
    assert d * b == (d - 1) * b + b;
    assert (d - 1) * b >= 0;
  }

  lemma Quotient(a: nat, b: nat, q: nat)
    requires b > 0 && q * b <= a < q * b + b
    ensures a / b == q
  {
    var d := a / b - q;
    assert a == (a / b) * b + a % b;
    assert d * b == (a / b) * b - q * b;
    assert (-d) * b == -(d * b);
    if d >= 1 {
      MulAtLeast(d, b);
    } else if d <= -1 {
      MulAtLeast(-d, b);
    }
  }

  lemma TruncatedSigns(a: int, b: nat)
    requires b > 0
    ensures a >= 0 ==> Truncated(a, b) == a / b
    ensures a < 0 ==> Truncated(a, b) <= 0
  {
  }

  /** The recent behaviour index takes three values, decided by how the running time compares to the rest. */
  lemma RbiExact(rtime: nat, stime: nat, wtime: nat)
    requires NoOverflow(rtime, stime, wtime)
    ensures CalculateRbi(rtime, stime, wtime) ==
            if rtime >= 3 * (stime + wtime) + 2 then 100 else if rtime >= stime + wtime + 1 then 50 else 0
  {
    hide AsInt, Truncated;
    var a, b := 3 * rtime - stime - wtime, rtime + wtime + stime + 1;
    AsIntSmall(a);
    AsIntSmall(b);
    TruncatedSigns(a, b);
    if rtime >= 3 * (stime + wtime) + 2 {
      Quotient(a, b, 2);
    } else if rtime >= stime + wtime + 1 {
      Quotient(a, b, 1);
    } else if a >= 0 {
      Quotient(a, b, 0);
    }
  }

  /** The documented index: the quotient is multiplied by 50 before it is rounded down. */
  function DocumentedRbi(rtime: nat, stime: nat, wtime: nat): int {
    var a, b := 3 * rtime - stime - wtime, rtime + wtime + stime + 1;
    if a > 0 then a * 50 / b else 0
  }

  lemma DivAtLeast(x: nat, b: nat, k: nat)
    requires b > 0 && x >= k * b
    ensures x / b >= k
  {
    var q := x / b;
    assert x == q * b + x % b;
    assert (k - q) * b == k * b - q * b;
    if q < k {
      MulAtLeast(k - q, b);
    }
  }

  lemma FiftyTimes(a: nat, b: nat, q: nat)
    requires b > 0 && q * b <= a < q * b + b
    ensures a % b == a - q * b
    ensures a * 50 / b == q * 50 <==> a % b * 50 < b
  {
    Quotient(a, b, q);
    assert (q * 50) * b == q * b * 50;
    assert (q * 50 + 1) * b == (q * 50) * b + b;
    if (a - q * b) * 50 < b {
      Quotient(a * 50, b, q * 50);
    } else {
      DivAtLeast(a * 50, b, q * 50 + 1);
    }
  }

  /** The code meets its documentation exactly when the division leaves no remainder worth a point. */
  lemma RbiMeetsDocument(rtime: nat, stime: nat, wtime: nat)
    requires NoOverflow(rtime, stime, wtime)
    ensures var a, b := 3 * rtime - stime - wtime, rtime + wtime + stime + 1;
            CalculateRbi(rtime, stime, wtime) == DocumentedRbi(rtime, stime, wtime) <==> a <= 0 || a % b * 50 < b
  {
    hide CalculateRbi;
    var a, b := 3 * rtime - stime - wtime, rtime + wtime + stime + 1;
    RbiExact(rtime, stime, wtime);
    if a > 0 {
      FiftyTimes(a, b, if rtime >= 3 * (stime + wtime) + 2 then 2 else if rtime >= stime + wtime + 1 then 1 else 0);
    }
  }

  /** One tick of running and nothing else: the document says 75, the code 50. */
  lemma RbiMissesDocument()
    ensures CalculateRbi(1, 0, 0) == 50 && DocumentedRbi(1, 0, 0) == 75
  {
    RbiExact(1, 0, 0);
  }

  function ClampDp(dp: int): (r: int)
    ensures 0 <= r <= 100 && (0 <= dp <= 100 ==> r == dp)
  {
    if dp > 100 then 100 else if dp < 0 then 0 else dp
  }

  function UpdateDp(p: Proc): Proc {
    var rbi := CalculateRbi(p.rtime, p.stime, p.wtime);
    var temp := AsInt(p.sp + rbi);
    p.(rbi := rbi, dp := if 0 <= temp < 100 then temp else if temp < 0 then temp % UINT else 100)
  }

  // Selection.

  predicate Better(a: Proc, b: Proc) {
    || a.sp < b.sp
    || (a.sp == b.sp && a.numScheduled < b.numScheduled)
    || (a.sp == b.sp && a.numScheduled == b.numScheduled && a.ctime < b.ctime)
  }

  /** i is the one to run: among the runnable ones the least by priority, turns, age and place in the table. */
  ghost predicate IsSelected(procs: seq<Proc>, i: nat) {
    && i < |procs|
    && procs[i].state == Runnable
    && forall j :: 0 <= j < |procs| && procs[j].state == Runnable && j != i ==>
         Better(procs[i], procs[j]) || (!Better(procs[j], procs[i]) && i < j)
  }

  lemma SelectedUnique(procs: seq<Proc>, i: nat, j: nat)
    requires IsSelected(procs, i) && IsSelected(procs, j)
    ensures i == j
  {
  }

  const TOP: nat := 9999999

  /** selectHigherPriorityProcess. */
  function Prefer(selected: Proc, current: Proc): bool {
    if selected.numScheduled == current.numScheduled then selected.ctime > current.ctime
    else current.numScheduled < selected.numScheduled
  }

  // Runs.

  datatype Sys = Sys(procs: seq<Proc>, ticks: nat)

  datatype Step =
    | Tick
    | Alloc(i: nat, pid: nat)
    | Free(i: nat)
    | Move(i: nat, state: State)
    | Begin(i: nat)
    | End(i: nat)
    | SetPriority(i: nat, priority: nat)

  function Ticked(p: Proc): Proc {
    match p.state
    case Running => p.(rtime := p.rtime + 1)
    case Runnable => p.(wtime := p.wtime + 1)
    case Sleeping => p.(stime := p.stime + 1)
    case _ => p
  }

  function AllTicked(procs: seq<Proc>): seq<Proc> {
    seq(|procs|, i requires 0 <= i < |procs| => Ticked(procs[i]))
  }

  /** allocproc. */
  function Allocated(p: Proc, pid: nat, ticks: nat): Proc {
    p.(state := Used, pid := pid, ctime := ticks, rtime := 0, wtime := 0, stime := 0, numScheduled := 0, sp := 50)
  }

  /** freeproc. */
  function Freed(p: Proc): Proc {
    p.(state := Unused, pid := 0, rtime := 0, wtime := 0, stime := 0, numScheduled := 0, sp := 50)
  }

  /** scheduleProcess up to the switch. */
  function Begun(p: Proc, ticks: nat): Proc {
    p.(start := ticks, rtime := 0, stime := 0, numScheduled := p.numScheduled + 1, state := Running)
  }

  /** scheduleProcess after the switch back. */
  function Ended(p: Proc, ticks: nat): Proc
    requires p.start <= ticks
  {
    var q := UpdateDp(p.(rtime := ticks - p.start));
    q.(sp := ClampDp(AsInt(q.dp)))
  }

  /** What sys_setpriority does to the process it finds. */
  function Prioritised(p: Proc, priority: nat): Proc {
    UpdateDp(p.(sp := priority, rbi := 25))
  }

  predicate Enabled(s: Sys, step: Step) {
    match step
    case Tick => true
    case Alloc(i, _) => i < |s.procs| && s.procs[i].state == Unused
    case Free(i) => i < |s.procs| && (s.procs[i].state == Used || s.procs[i].state == Zombie)
    case Move(i, state) =>
      i < |s.procs| && s.procs[i].state != Unused && state != Unused && state != Used && state != Running
    case Begin(i) => i < |s.procs| && s.procs[i].state == Runnable
    case End(i) => i < |s.procs| && s.procs[i].state != Running && s.procs[i].start <= s.ticks
    case SetPriority(i, priority) => i < |s.procs| && priority <= 100
  }

  /**
   Tick: clockintr and update_time. Move: any change of state by sched, wakeup, kill or fork. End follows the switch
   back from a process, which has by then left RUNNING.
   */
  function Do(s: Sys, step: Step): Sys
    requires Enabled(s, step)
  {
    match step
    case Tick => Sys(AllTicked(s.procs), s.ticks + 1)
    case Alloc(i, pid) => s.(procs := s.procs[i := Allocated(s.procs[i], pid, s.ticks)])
    case Free(i) => s.(procs := s.procs[i := Freed(s.procs[i])])
    case Move(i, state) => s.(procs := s.procs[i := s.procs[i].(state := state)])
    case Begin(i) => s.(procs := s.procs[i := Begun(s.procs[i], s.ticks)])
    case End(i) => s.(procs := s.procs[i := Ended(s.procs[i], s.ticks)])
    case SetPriority(i, priority) => s.(procs := s.procs[i := Prioritised(s.procs[i], priority)])
  }

  /** Below this many ticks since boot no counter overflows. */
  const TICK_LIMIT: nat := 0x1000_0000

  predicate ProcOk(p: Proc, ticks: nat) {
    && p.sp <= 100
    && p.dp <= 100
    && (p.rbi == 0 || p.rbi == 50 || p.rbi == 100)
    && p.rtime <= ticks && p.stime <= ticks && p.wtime <= ticks && p.start <= ticks
  }

  ghost predicate Inv(s: Sys) {
    forall i :: 0 <= i < |s.procs| ==> ProcOk(s.procs[i], s.ticks)
  }

  /** What update_dp computes, within bounds: the priority plus 0, 50 or 100, at most 100. */
  lemma UpdateDpExact(p: Proc, ticks: nat)
    requires p.sp <= 100 && p.rtime <= ticks && p.stime <= ticks && p.wtime <= ticks && ticks < TICK_LIMIT
    ensures var q := UpdateDp(p);
            && q == p.(rbi := q.rbi, dp := q.dp)
            && (q.rbi == 0 || q.rbi == 50 || q.rbi == 100)
            && q.dp == (if p.sp + q.rbi < 100 then p.sp + q.rbi else 100)
            && p.sp <= q.dp <= 100
  {
    RbiExact(p.rtime, p.stime, p.wtime);
    AsIntSmall(p.sp + CalculateRbi(p.rtime, p.stime, p.wtime));
  }

  lemma EndedExact(p: Proc, ticks: nat)
    requires ProcOk(p, ticks) && ticks < TICK_LIMIT
    ensures ProcOk(Ended(p, ticks), ticks) && p.sp <= Ended(p, ticks).sp == Ended(p, ticks).dp
  {
    var q := p.(rtime := ticks - p.start);
    UpdateDpExact(q, ticks);
    AsIntSmall(UpdateDp(q).dp);
  }

  lemma PrioritisedExact(p: Proc, priority: nat, ticks: nat)
    requires ProcOk(p, ticks) && ticks < TICK_LIMIT && priority <= 100
    ensures ProcOk(Prioritised(p, priority), ticks) && Prioritised(p, priority).sp == priority
  {
    UpdateDpExact(p.(sp := priority, rbi := 25), ticks);
  }

  lemma StepInv(s: Sys, step: Step)
    requires Inv(s) && Enabled(s, step) && s.ticks < TICK_LIMIT
    ensures Inv(Do(s, step)) && |Do(s, step).procs| == |s.procs|
  {
    hide UpdateDp;
    match step {
      case End(i) => EndedExact(s.procs[i], s.ticks);
      case SetPriority(i, priority) => PrioritisedExact(s.procs[i], priority, s.ticks);
      case _ =>
    }
  }

  /** Only setpriority, or the slot's reuse by another process, lowers the number in slot k. */
  lemma StepKeepsSp(s: Sys, step: Step, k: nat)
    requires Inv(s) && Enabled(s, step) && s.ticks < TICK_LIMIT && k < |s.procs|
    requires !((step.SetPriority? || step.Alloc? || step.Free?) && step.i == k)
    ensures k < |Do(s, step).procs| && Do(s, step).procs[k].sp >= s.procs[k].sp
  {
    hide UpdateDp;
    if step.End? {
      EndedExact(s.procs[step.i], s.ticks);
    }
  }

  ghost predicate Init(s: Sys) {
    && s.ticks == 0
    && forall i :: 0 <= i < |s.procs| ==> s.procs[i] == Proc(Unused, 0, 0, 0, 0, 0, 0, 0, 0, 0, 0)
  }

  ghost predicate Goes(s: Sys, step: Step, s': Sys) {
    Enabled(s, step) && s' == Do(s, step) && s.ticks < TICK_LIMIT
  }

  ghost predicate Run(run: seq<Sys>, steps: seq<Step>) {
    && |run| == |steps| + 1
    && Init(run[0])
    && forall i :: 0 <= i < |steps| ==> Goes(run[i], steps[i], run[i + 1])
  }

  lemma {:induction false} RunInv(run: seq<Sys>, steps: seq<Step>, i: nat)
    requires Run(run, steps) && i < |run|
    ensures Inv(run[i]) && |run[i].procs| == |run[0].procs|
  {
    hide Do;
    if i > 0 {
      RunInv(run, steps, i - 1);
      assert Goes(run[i - 1], steps[i - 1], run[i - 1 + 1]);
      StepInv(run[i - 1], steps[i - 1]);
    }
  }

  /** In every run, until the counters could overflow, SP stays in [0, 100] and RBI is 0, 50 or 100. */
  lemma PrioritiesBounded(run: seq<Sys>, steps: seq<Step>, i: nat, k: nat)
    requires Run(run, steps) && i < |run| && k < |run[i].procs|
    ensures run[i].procs[k].sp <= 100 && run[i].procs[k].dp <= 100 && run[i].procs[k].rbi in {0, 50, 100}
  {
    RunInv(run, steps, i);
    assert ProcOk(run[i].procs[k], run[i].ticks);
  }

  predicate Touches(step: Step, k: nat) {
    (step.SetPriority? || step.Alloc? || step.Free?) && step.i == k
  }

  /** Over any stretch of a run in which nobody sets its priority, a live process's SP never falls. */
  lemma {:induction false} SpNeverFalls(run: seq<Sys>, steps: seq<Step>, i: nat, j: nat, k: nat)
    requires Run(run, steps) && i <= j < |run| && k < |run[0].procs|
    requires forall m :: i <= m < j ==> !Touches(steps[m], k)
    ensures k < |run[i].procs| && k < |run[j].procs| && run[i].procs[k].sp <= run[j].procs[k].sp
    decreases j - i
  {
    hide Do;
    RunInv(run, steps, i);
    if i < j {
      SpNeverFalls(run, steps, i, j - 1, k);
      RunInv(run, steps, j - 1);
      assert Goes(run[j - 1], steps[j - 1], run[j - 1 + 1]);
      StepKeepsSp(run[j - 1], steps[j - 1], k);
    }
  }

  /** The process table and the clock. */
  class Table {
    var procs: seq<Proc>
    var ticks: nat

    ghost function State(): Sys
      reads this
    {
      Sys(procs, ticks)
    }

    constructor (procs: seq<Proc>, ticks: nat)
      ensures State() == Sys(procs, ticks)
    {
      this.procs, this.ticks := procs, ticks;
    }

    /** The scheduler's loop over the table, on a table that stays as it is meanwhile. */
    method Select() returns (selected: Option<nat>)
      requires forall i :: 0 <= i < |procs| ==> procs[i].sp <= TOP
      ensures selected.None? <==> forall i :: 0 <= i < |procs| ==> procs[i].state != Runnable
      ensures selected.Some? ==> IsSelected(procs, selected.value)
    {
      var lowest := TOP;
      selected := None;
      var p := 0;
      while p < |procs|
        invariant 0 <= p <= |procs|
        invariant selected.None? ==> lowest == TOP && forall i :: 0 <= i < p ==> procs[i].state != Runnable
        invariant selected.Some? ==> selected.value < p && lowest == procs[selected.value].sp && IsSelected(procs[..p], selected.value)
      {
        if procs[p].state == Runnable {
          if procs[p].sp == lowest {
            if selected.Some? && selected.value != p {
              if Prefer(procs[selected.value], procs[p]) {
                selected := Some(p);
              }
            } else {
              selected := Some(p);
            }
          } else if lowest > procs[p].sp {
            lowest := procs[p].sp;
            selected := Some(p);
          }
        }
        p := p + 1;
      }
      assert procs[..|procs|] == procs;
    }

    /** clockintr: the tick and the loop of update_time. */
    method UpdateTime()
      modifies this
      ensures State() == Do(old(State()), Tick)
    {
      ticks := ticks + 1;
      var i := 0;
      while i < |procs|
        invariant 0 <= i <= |procs| == |old(procs)| && ticks == old(ticks) + 1
        invariant forall k :: 0 <= k < i ==> procs[k] == Ticked(old(procs)[k])
        invariant forall k :: i <= k < |procs| ==> procs[k] == old(procs)[k]
      {
        procs := procs[i := Ticked(procs[i])];
        i := i + 1;
      }
    }

    /** scheduleProcess up to swtch: nothing happens to a process that is no longer RUNNABLE. */
    method BeginSlice(i: nat) returns (runs: bool)
      requires i < |procs|
      modifies this`procs
      ensures runs <==> Enabled(old(State()), Begin(i))
      ensures State() == if runs then Do(old(State()), Begin(i)) else old(State())
    {
      runs := procs[i].state == Runnable;
      if runs {
        var p := procs[i].(start := ticks);
        p := p.(rtime := 0, stime := 0);
        p := p.(numScheduled := p.numScheduled + 1);
        procs := procs[i := p.(state := Running)];
      }
    }

    /** scheduleProcess from the return of swtch. */
    method EndSlice(i: nat)
      requires Enabled(State(), End(i))
      modifies this`procs
      ensures State() == Do(old(State()), End(i))
    {
      var p := procs[i].(rtime := ticks - procs[i].start);
      p := UpdateDp(p);
      procs := procs[i := p.(sp := ClampDp(AsInt(p.dp)))];
    }

    /**
     sys_setpriority up to its yield: the first process with that pid gets the priority. The result is -1 for a priority
     out of range, the old priority if the process was found, and otherwise 999999999; and whether to yield.
     */
    method SetPriority(pid: nat, priority: int) returns (result: int, gives: bool)
      modifies this`procs
      ensures !(0 <= priority <= 100) ==> result == -1 && !gives && procs == old(procs)
      ensures 0 <= priority <= 100 && (forall i :: 0 <= i < |old(procs)| ==> old(procs)[i].pid != pid) ==>
                result == 999999999 && gives && procs == old(procs)
      ensures 0 <= priority <= 100 ==> forall i :: 0 <= i < |old(procs)| && IsFirst(old(procs), pid, i) ==>
                && result == old(procs)[i].sp
                && gives == (priority < old(procs)[i].sp)
                && State() == Do(old(State()), Step.SetPriority(i, priority))
    {
      if priority < 0 || priority > 100 {
        return -1, false;
      }
      var oldPriority := 999999999;
      var i := 0;
      while i < |procs|
        invariant 0 <= i <= |procs| && procs == old(procs) && oldPriority == 999999999
        invariant forall k :: 0 <= k < i ==> procs[k].pid != pid
      {
        if procs[i].pid == pid {
          oldPriority := procs[i].sp;
          var p := procs[i].(sp := priority);
          p := p.(rbi := 25);
          procs := procs[i := UpdateDp(p)];
          break;
        }
        i := i + 1;
      }
      return oldPriority, oldPriority != -1 && priority < oldPriority;
    }
  }

  predicate IsFirst(procs: seq<Proc>, pid: nat, i: nat)
    requires i < |procs|
  {
    procs[i].pid == pid && forall k :: 0 <= k < i ==> procs[k].pid != pid
  }
}

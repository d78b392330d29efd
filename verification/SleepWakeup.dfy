/**
 sleep() and wakeup() of kernel/proc.c, for the processes that share one condition lock lk. Each step is the code
 between two lock operations, or between a lock operation and the switch to the scheduler. The rules that clients
 keep are stated apart (Disciplined); under them no wakeup is lost in any interleaving.
 */
module SleepWakeup {
  import opened Collections

  /** An index in the process table. */
  type Proc = nat

  type Chan = nat

  datatype State = Sleeping | Runnable | Running

  /**
   Where a process is. Out: it neither holds lk nor is in sleep. In: it holds lk and runs its client's code.
   Called, Armed, Released: in sleep(ch, lk) holding lk, both locks, only its own. Switching: it has marked itself
   SLEEPING and its lock is held by the scheduler. Asleep: that lock is free. Woken: marked RUNNABLE. Resumed: running
   again, its lock still held for it by the scheduler. Wanting: about to reacquire lk. Waking: in wakeup(ch), holding
   lk, having visited the processes below next.
   */
  datatype Pc =
    | Out
    | In
    | Called(ch: Chan)
    | Armed(ch: Chan)
    | Released(ch: Chan)
    | Switching(ch: Chan)
    | Asleep(ch: Chan)
    | Woken
    | Resumed
    | Wanting
    | Waking(ch: Chan, next: nat)

  /** The fields of struct proc that take part; locked is p->lock. */
  datatype P = P(state: State, chan: Option<Chan>, locked: bool, pc: Pc)

  /**
   ready are the channels whose condition holds, as the client's data has it; owed are those that the holder of lk has
   made ready and not yet passed to wakeup.
   */
  datatype Sys = Sys(procs: seq<P>, lk: Option<Proc>, ready: set<Chan>, owed: set<Chan>)

  datatype Step =
    | Acquire(p: Proc)
    | Release(p: Proc)
    | Change(p: Proc, ready: set<Chan>, owed: set<Chan>)
    | Sleep(p: Proc, ch: Chan)
    | LockSelf(p: Proc)
    | DropLk(p: Proc)
    | MarkSleeping(p: Proc)
    | SwitchOff(p: Proc)
    | Wakeup(p: Proc, ch: Chan)
    | Visit(p: Proc)
    | Return(p: Proc)
    | Kill(p: Proc)
    | Dispatch(p: Proc)
    | Tidy(p: Proc)

  predicate At(s: Sys, p: Proc, pc: Pc) {
    p < |s.procs| && s.procs[p].pc == pc
  }

  /** What the locks and the code's position allow. */
  predicate Enabled(s: Sys, step: Step) {
    && step.p < |s.procs|
    && var q := s.procs[step.p];
    match step
    case Acquire(p) => (q.pc == Out || q.pc == Wanting) && s.lk == None
    case Release(p) => q.pc == In
    case Change(p, ready, owed) => q.pc == In
    case Sleep(p, ch) => q.pc == In
    case LockSelf(p) => q.pc.Called? && !q.locked
    case DropLk(p) => q.pc.Armed?
    case MarkSleeping(p) => q.pc.Released?
    case SwitchOff(p) => q.pc.Switching?
    case Wakeup(p, ch) => q.pc == In
    case Visit(p) => q.pc.Waking? && q.pc.next < |s.procs| && (q.pc.next != p ==> !s.procs[q.pc.next].locked)
    case Return(p) => q.pc.Waking? && q.pc.next == |s.procs|
    case Kill(p) => !q.locked
    case Dispatch(p) => q.pc == Woken && q.state == Runnable && !q.locked
    case Tidy(p) => q.pc == Resumed
  }

  function Set(s: Sys, p: Proc, q: P): Sys
    requires p < |s.procs|
  {
    s.(procs := s.procs[p := q])
  }

  function MoveTo(s: Sys, p: Proc, pc: Pc): Sys
    requires p < |s.procs|
  {
    Set(s, p, s.procs[p].(pc := pc))
  }

  /** A sleeping process made runnable: it will come back from sched() in sleep. */
  function Wake(q: P): P {
    q.(state := Runnable, pc := Woken)
  }

  function Do(s: Sys, step: Step): Sys
    requires Enabled(s, step)
  {
    var p, q := step.p, s.procs[step.p];
    match step
    case Acquire(_) => MoveTo(s, p, In).(lk := Some(p))
    case Release(_) => MoveTo(s, p, Out).(lk := None, owed := {})
    case Change(_, ready, owed) => s.(ready := ready, owed := owed)
    case Sleep(_, ch) => MoveTo(s, p, Called(ch))
    case LockSelf(_) => Set(s, p, q.(locked := true, pc := Armed(q.pc.ch)))
    case DropLk(_) => MoveTo(s, p, Released(q.pc.ch)).(lk := None)
    case MarkSleeping(_) => Set(s, p, q.(chan := Some(q.pc.ch), state := Sleeping, pc := Switching(q.pc.ch)))
    case SwitchOff(_) => Set(s, p, q.(locked := false, pc := Asleep(q.pc.ch)))
    case Wakeup(_, ch) => MoveTo(s, p, Waking(ch, 0)).(owed := s.owed - {ch})
    case Visit(_) =>
      var i, t := q.pc.next, s.procs[q.pc.next];
      var s1 := if i != p && t.state == Sleeping && t.chan == Some(q.pc.ch) then Set(s, i, Wake(t)) else s;
      MoveTo(s1, p, Waking(q.pc.ch, i + 1))
    case Return(_) => MoveTo(s, p, In)
    case Kill(_) => if q.state == Sleeping then Set(s, p, Wake(q)) else s
    case Dispatch(_) => Set(s, p, q.(locked := true, state := Running, pc := Resumed))
    case Tidy(_) => Set(s, p, q.(chan := None, locked := false, pc := Wanting))
  }

  /** p has given up lk in sleep(ch, lk) and has not been woken. */
  predicate Waits(s: Sys, p: Proc, ch: Chan) {
    At(s, p, Released(ch)) || At(s, p, Switching(ch)) || At(s, p, Asleep(ch))
  }

  ghost predicate NobodyWaits(s: Sys, ch: Chan) {
    forall p :: 0 <= p < |s.procs| ==> !Waits(s, p, ch)
  }

  /**
   The rules of use: a process sleeps on a channel only after seeing, under lk, that its condition does not hold, and
   owing nothing; whoever makes a condition hold calls wakeup on its channel before giving up lk, unless nobody waits
   on it.
   */
  ghost predicate Disciplined(s: Sys, step: Step) {
    match step
    case Release(_) => forall ch :: ch in s.owed ==> NobodyWaits(s, ch)
    case Change(_, ready, owed) => forall ch :: ch in ready && (ch !in s.ready || ch in s.owed) ==> ch in owed
    case Sleep(_, ch) => ch !in s.ready && s.owed == {}
    case _ => true
  }

  ghost predicate Next(s: Sys, s': Sys) {
    exists step :: Enabled(s, step) && Disciplined(s, step) && s' == Do(s, step)
  }

  // The invariant.

  predicate HoldsLk(pc: Pc) {
    pc.In? || pc.Called? || pc.Armed? || pc.Waking?
  }

  /** The holder of lk has yet to call wakeup(ch), or to visit p in it. */
  predicate Promised(s: Sys, p: Proc, ch: Chan) {
    || ch in s.owed
    || (s.lk.Some? && s.lk.value < |s.procs| && var w := s.procs[s.lk.value].pc; w.Waking? && w.ch == ch && w.next <= p)
  }

  /** The fields follow from the position. */
  predicate FieldsOk(q: P) {
    match q.pc
    case Armed(_) => q.locked && q.state != Sleeping
    case Released(_) => q.locked && q.state != Sleeping
    case Switching(ch) => q.locked && q.state == Sleeping && q.chan == Some(ch)
    case Asleep(ch) => !q.locked && q.state == Sleeping && q.chan == Some(ch)
    case Resumed => q.locked && q.state == Running
    case Woken => !q.locked && q.state == Runnable
    case _ => !q.locked && q.state != Sleeping
  }

  ghost predicate ProcOk(s: Sys, p: Proc)
    requires p < |s.procs|
  {
    var q := s.procs[p];
    && FieldsOk(q)
    && (HoldsLk(q.pc) <==> s.lk == Some(p))
    && (q.pc.Called? || q.pc.Armed? ==> q.pc.ch !in s.ready && s.owed == {})
    && (q.pc.Released? || q.pc.Switching? || q.pc.Asleep? ==> q.pc.ch in s.ready ==> Promised(s, p, q.pc.ch))
  }

  ghost predicate Inv(s: Sys) {
    && (s.lk.None? ==> s.owed == {})
    && (s.lk.Some? ==> s.lk.value < |s.procs|)
    && (forall p {:trigger s.procs[p]} :: 0 <= p < |s.procs| ==> ProcOk(s, p))
  }

  lemma StepLk(s: Sys, step: Step)
    requires Inv(s) && Enabled(s, step) && Disciplined(s, step)
    ensures var s' := Do(s, step);
            && |s'.procs| == |s.procs|
            && (s'.lk.None? ==> s'.owed == {})
            && (s'.lk.Some? ==> s'.lk.value < |s'.procs|)
  {
    hide Promised;
    assert ProcOk(s, step.p);
  }

  /** The process that takes the step. */
  lemma StepSelf(s: Sys, step: Step)
    requires Inv(s) && Enabled(s, step) && Disciplined(s, step)
    ensures ProcOk(Do(s, step), step.p)
  {
    assert ProcOk(s, step.p);
  }

  /** What the holder of lk owes when it lets go is owed to nobody. */
  lemma ReleaseOther(s: Sys, step: Step, p: Proc)
    requires Inv(s) && Enabled(s, step) && Disciplined(s, step) && step.Release? && p < |s.procs| && p != step.p
    ensures ProcOk(Do(s, step), p)
  {
    hide FieldsOk;
    var pc := s.procs[p].pc;
    assert ProcOk(s, p) && ProcOk(s, step.p);
    if pc.Released? || pc.Switching? || pc.Asleep? {
      assert Waits(s, p, pc.ch);
    }
  }

  /** A process that another one's step leaves alone. */
  lemma StepOther(s: Sys, step: Step, p: Proc)
    requires Inv(s) && Enabled(s, step) && Disciplined(s, step) && p < |s.procs| && p != step.p
    requires Do(s, step).procs[p] == s.procs[p] && !step.Release?
    ensures ProcOk(Do(s, step), p)
  {
    assert ProcOk(s, p) && ProcOk(s, step.p);
  }

  /** The process that a wakeup visits. */
  lemma StepVisited(s: Sys, step: Step, p: Proc)
    requires Inv(s) && Enabled(s, step) && step.Visit? && p < |s.procs| && p != step.p && s.procs[step.p].pc.next == p
    ensures ProcOk(Do(s, step), p)
  {
    assert ProcOk(s, p) && ProcOk(s, step.p);
  }

  lemma StepProc(s: Sys, step: Step, p: Proc)
    requires Inv(s) && Enabled(s, step) && Disciplined(s, step) && p < |s.procs|
    ensures ProcOk(Do(s, step), p)
  {
    hide ProcOk, Disciplined;
    if p == step.p {
      StepSelf(s, step);
    } else if step.Visit? && s.procs[step.p].pc.next == p {
      StepVisited(s, step, p);
    } else if step.Release? {
      ReleaseOther(s, step, p);
    } else {
      StepOther(s, step, p);
    }
  }

  lemma StepInv(s: Sys, step: Step)
    requires Inv(s) && Enabled(s, step) && Disciplined(s, step)
    ensures Inv(Do(s, step))
  {
    hide ProcOk, Do, Disciplined;
    StepLk(s, step);
    var s' := Do(s, step);
    forall p | 0 <= p < |s'.procs|
      ensures ProcOk(s', p)
    {
      StepProc(s, step, p);
    }
  }

  // Runs.

  ghost predicate Init(s: Sys) {
    s.lk == None && s.owed == {} && forall i :: 0 <= i < |s.procs| ==> s.procs[i] == P(Running, None, false, Out)
  }

  ghost predicate Run(run: seq<Sys>) {
    && run != []
    && Init(run[0])
    && forall i :: 0 <= i < |run| - 1 ==> Next(run[i], run[i + 1])
  }

  lemma {:induction false} RunInv(run: seq<Sys>, i: nat)
    requires Run(run) && i < |run|
    ensures Inv(run[i])
  {
    if i == 0 {
      forall p | 0 <= p < |run[0].procs|
        ensures ProcOk(run[0], p)
      {
      }
    } else {
      RunInv(run, i - 1);
      assert Next(run[i - 1], run[i - 1 + 1]);
      var step :| Enabled(run[i - 1], step) && Disciplined(run[i - 1], step) && run[i] == Do(run[i - 1], step);
      StepInv(run[i - 1], step);
    }
  }

  /** p is marked SLEEPING on ch. */
  predicate SleepsOn(s: Sys, p: Proc, ch: Chan) {
    p < |s.procs| && s.procs[p].state == Sleeping && s.procs[p].chan == Some(ch)
  }

  /** Of a single state: who is SLEEPING on ch waits on it, and if its condition holds a wakeup is on its way. */
  lemma SleepersWait(s: Sys, p: Proc, ch: Chan)
    requires Inv(s) && (SleepsOn(s, p, ch) || Waits(s, p, ch))
    ensures Waits(s, p, ch)
    ensures ch in s.ready ==> s.lk.Some? && Promised(s, p, ch)
  {
    assert ProcOk(s, p);
  }

  /**
   No lost wakeup: at every moment of every interleaving, a process that is SLEEPING on a channel whose condition
   holds, or past the point in sleep where it gave up lk, will be visited by a wakeup that the holder of lk is
   running or owes; so whenever lk is free the condition does not hold.
   */
  lemma NoLostWakeup(run: seq<Sys>, p: Proc, ch: Chan)
    requires Run(run) && (SleepsOn(run[|run| - 1], p, ch) || Waits(run[|run| - 1], p, ch))
    ensures var s := run[|run| - 1];
            && (ch in s.ready ==> s.lk.Some? && Promised(s, p, ch))
            && (s.lk.None? ==> ch !in s.ready)
  {
    hide Inv;
    RunInv(run, |run| - 1);
    SleepersWait(run[|run| - 1], p, ch);
  }

  /** The visit that NoLostWakeup speaks of does make the sleeper runnable. */
  lemma VisitWakes(s: Sys, w: Proc, p: Proc, ch: Chan)
    requires Inv(s) && SleepsOn(s, p, ch) && At(s, w, Waking(ch, p)) && Enabled(s, Visit(w))
    ensures var s' := Do(s, Visit(w)); s'.procs[p].state == Runnable && s'.procs[p].pc == Woken
  {
    assert ProcOk(s, p) && ProcOk(s, w);
  }
}

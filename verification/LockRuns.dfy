/** Whole lock and unlock operations, from their first step to their last, in runs of any number of
threads: what each leaves behind, and when a lock leaves the fast path. */
module LockRuns {
  import opened WordBits
  import opened ThinLock

  // ----- the steps of one thread -----

  /** `j` is the next step of thread `t` after `i`. */
  ghost predicate NextOf(steps: seq<Step>, t: int, i: int, j: int) {
    && 0 <= i < j < |steps| && steps[j].t == t
    && forall k :: i < k < j ==> steps[k].t != t
  }

  lemma StepAt(c: Config, run: seq<Sys>, steps: seq<Step>, i: int)
    requires IsRun(c, run, steps) && 0 <= i < |steps|
    ensures Enabled(c, run[i], steps[i]) && run[i + 1] == Next(c, run[i], steps[i])
  {
  }

  /** Nobody else changes where a thread is, or what it holds. */
  lemma {:induction false} Waits(c: Config, run: seq<Sys>, steps: seq<Step>, t: int, i: int, j: int)
    requires IsRun(c, run, steps) && 0 <= i <= j < |run| && t in run[i].threads
    requires forall k :: i <= k < j ==> steps[k].t != t
    ensures t in run[j].threads && run[j].threads[t] == run[i].threads[t]
    decreases j - i
  {
    hide Init, Follows, Enabled, Next;
    if i < j {
      StepAt(c, run, steps, j - 1);
      Waits(c, run, steps, t, i, j - 1);
      assert steps[j - 1].t != t;
      OthersKeep(c, run[j - 1], steps[j - 1]);
    }
  }

  lemma OthersKeep(c: Config, s: Sys, step: Step)
    requires Enabled(c, s, step)
    ensures Next(c, s, step).threads.Keys == s.threads.Keys
    ensures forall t :: t in s.threads && t != step.t ==> Next(c, s, step).threads[t] == s.threads[t]
  {
    hide RecursionTest, Read, ReadObj, MarkOf, Or1, Released, Acquired, InStack, Fresh, StackPointer;
    var th := Next(c, s, step).threads[step.t];
    assert Next(c, s, step).threads == s.threads[step.t := th];
  }

  /** Between two of its steps a thread stays as it is, and in the middle of an operation it can only go on. */
  lemma Resumes(c: Config, run: seq<Sys>, steps: seq<Step>, t: int, i: int, j: int)
    requires IsRun(c, run, steps) && NextOf(steps, t, i, j) && t in run[i + 1].threads
    ensures Enabled(c, run[j], steps[j]) && run[j + 1] == Next(c, run[j], steps[j])
    ensures t in run[j].threads && run[j].threads[t] == run[i + 1].threads[t]
    ensures !run[i + 1].threads[t].pc.Idle? ==> steps[j] == Advance(t)
  {
    hide Init, Follows;
    Waits(c, run, steps, t, i + 1, j);
    StepAt(c, run, steps, j);
  }

  // ----- locking -----

  /** A lock up to and including its exchange. */
  ghost predicate LockSteps(steps: seq<Step>, t: int, obj: int, rec: nat, rsp: nat,
                            i0: int, i1: int, i2: int, i3: int)
  {
    && 0 <= i0 < |steps| && steps[i0] == BeginLock(t, obj, rec, rsp)
    && NextOf(steps, t, i0, i1) && NextOf(steps, t, i1, i2) && NextOf(steps, t, i2, i3)
  }

  /** The value the exchange compares the mark with is the mark as loaded, with the unlocked bit. */
  lemma LockReaches(c: Config, run: seq<Sys>, steps: seq<Step>, t: int, obj: int, rec: nat, rsp: nat,
                    i0: int, i1: int, i2: int, i3: int)
    requires IsRun(c, run, steps) && LockSteps(steps, t, obj, rec, rsp, i0, i1, i2, i3)
    ensures t in run[i0].threads && t in run[i3].threads && steps[i3] == Advance(t)
    ensures Enabled(c, run[i3], steps[i3]) && run[i3 + 1] == Next(c, run[i3], steps[i3])
    ensures run[i3].threads[t]
         == Thread(CasMark(obj, rec, rsp, Or1(MarkOf(run[i1], obj))), run[i0].threads[t].held)
  {
    hide Init, Follows, RecursionTest;
    StepAt(c, run, steps, i0);
    Resumes(c, run, steps, t, i0, i1);
    Resumes(c, run, steps, t, i1, i2);
    Resumes(c, run, steps, t, i2, i3);
  }

  ghost predicate Free(s: Sys, obj: int) {
    forall u :: !HoldsLock(s, u, obj)
  }

  /** The exchange succeeds exactly if the mark is what was loaded. Then the object was free, and now
      belongs to the thread; otherwise nothing has changed yet. */
  lemma ExchangeOutcome(c: Config, run: seq<Sys>, steps: seq<Step>, t: int, obj: int, rec: nat, rsp: nat,
                        i0: int, i1: int, i2: int, i3: int)
    requires WfConfig(c) && IsRun(c, run, steps) && LockSteps(steps, t, obj, rec, rsp, i0, i1, i2, i3)
    ensures t in run[i0].threads && t in run[i3 + 1].threads && obj in c.header
    ensures var held := run[i0].threads[t].held;
      if MarkOf(run[i3], obj) == Or1(MarkOf(run[i1], obj)) then
        && Free(run[i3], obj) && run[i3 + 1].threads[t] == Thread(Idle, held + [Held(obj, rec)])
        && run[i3 + 1].mark == run[i3].mark[obj := rec] && Read(run[i3 + 1].disp, rec) == c.header[obj]
      else
        && run[i3 + 1].threads[t] == Thread(TestRecursion(obj, rec, rsp, MarkOf(run[i3], obj)), held)
        && run[i3 + 1].mark == run[i3].mark
  {
    hide WfConfig, Init, Follows, Inv, InStack, Enabled, RecursionTest;
    LockReaches(c, run, steps, t, obj, rec, rsp, i0, i1, i2, i3);
    RunInv(c, run, steps, i3);
    AttemptFacts(c, run[i3], t);
    if MarkOf(run[i3], obj) == Or1(MarkOf(run[i1], obj)) {
      LockedFresh(c, run[i3], t);
    }
  }

  lemma AttemptFacts(c: Config, s: Sys, t: int)
    requires Inv(c, s) && t in s.threads && s.threads[t].pc.CasMark?
    ensures s.threads[t].pc.obj in c.header && s.threads[t].pc.obj in s.mark
  {
    assert ThreadInv(c, s, t, s.threads[t]);
  }

  /** A lock of a free object succeeds if its mark does not change before the exchange. */
  lemma FreeLockSucceeds(c: Config, run: seq<Sys>, steps: seq<Step>, t: int, obj: int, rec: nat, rsp: nat,
                         i0: int, i1: int, i2: int, i3: int)
    requires WfConfig(c) && IsRun(c, run, steps) && LockSteps(steps, t, obj, rec, rsp, i0, i1, i2, i3)
    requires Free(run[i0], obj)
    requires forall k :: i0 <= k <= i3 ==> MarkOf(run[k], obj) == MarkOf(run[i0], obj)
    ensures t in run[i0].threads && t in run[i3 + 1].threads && obj in c.header && obj in run[i3 + 1].mark
    ensures run[i3 + 1].threads[t] == Thread(Idle, run[i0].threads[t].held + [Held(obj, rec)])
    ensures run[i3 + 1].mark[obj] == rec && Read(run[i3 + 1].disp, rec) == c.header[obj]
  {
    hide Init, Follows, HoldsLock, MarkOf;
    ExchangeOutcome(c, run, steps, t, obj, rec, rsp, i0, i1, i2, i3);
    FreeMark(c, run, steps, i0, obj);
    assert MarkOf(run[i1], obj) == MarkOf(run[i0], obj) && MarkOf(run[i3], obj) == MarkOf(run[i0], obj);
  }

  /** An object is free exactly if its mark is the header. */
  lemma FreeMark(c: Config, run: seq<Sys>, steps: seq<Step>, n: int, obj: int)
    requires WfConfig(c) && IsRun(c, run, steps) && 0 <= n < |run| && obj in c.header
    ensures c.header[obj] % 2 == 1 && (Free(run[n], obj) <==> MarkOf(run[n], obj) == c.header[obj])
  {
    hide Init, Follows, HoldsLock, Inv;
    MarkMeaning(c, run, steps, n, obj);
    forall t | HoldsLock(run[n], t, obj)
      ensures MarkOf(run[n], obj) != c.header[obj]
    {
      HolderMark(c, run, steps, n, t, obj);
    }
  }

  /** The mark of a held object is the address of the outermost record, an even number. */
  lemma HolderMark(c: Config, run: seq<Sys>, steps: seq<Step>, n: int, t: int, obj: int)
    requires WfConfig(c) && IsRun(c, run, steps) && 0 <= n < |run| && HoldsLock(run[n], t, obj)
    ensures obj in run[n].mark && obj in c.header && MarkOf(run[n], obj) % 2 == 0
    ensures OwnsWith(run[n].threads[t].held, obj, MarkOf(run[n], obj))
  {
    hide Init, Follows, WfConfig, InStack, MarkInv;
    RunInv(c, run, steps, n);
    var i :| 0 <= i < |run[n].threads[t].held| && run[n].threads[t].held[i].obj == obj;
    HolderIsMarked(c, run[n], t, i);
  }

  lemma OneOuter(held: seq<Held>, obj: int, rec: nat, rec': nat)
    requires OwnsWith(held, obj, rec) && OwnsWith(held, obj, rec')
    ensures rec == rec'
  {
    var i :| 0 <= i < |held| && held[i] == Held(obj, rec) && Outer(held, i);
    var j :| 0 <= j < |held| && held[j] == Held(obj, rec') && Outer(held, j);
    assert i == j;
  }

  /** As long as a thread holds the same locks, the marks of their objects stay the same. */
  lemma OwnMarkStays(c: Config, run: seq<Sys>, steps: seq<Step>, t: int, obj: int, i: int, j: int)
    requires WfConfig(c) && IsRun(c, run, steps) && 0 <= i < |run| && 0 <= j < |run|
    requires t in run[i].threads && t in run[j].threads && run[i].threads[t].held == run[j].threads[t].held
    requires HoldsLock(run[i], t, obj)
    ensures HoldsLock(run[j], t, obj) && MarkOf(run[i], obj) == MarkOf(run[j], obj)
    ensures MarkOf(run[i], obj) % 2 == 0 && obj in c.header
  {
    hide Init, Follows, WfConfig, OwnsWith, MarkOf;
    assert HoldsLock(run[j], t, obj);
    HolderMark(c, run, steps, i, t, obj);
    HolderMark(c, run, steps, j, t, obj);
    OneOuter(run[i].threads[t].held, obj, MarkOf(run[i], obj), MarkOf(run[j], obj));
  }

  /** After a failed exchange the lock is recursive exactly if the thread held the object before and its
      outermost record is less than a page above the stack pointer; otherwise it is left to the slow path.
      No mark changes in either case. */
  lemma RelockOutcome(c: Config, run: seq<Sys>, steps: seq<Step>, t: int, obj: int, rec: nat, rsp: nat,
                      i0: int, i1: int, i2: int, i3: int, i4: int)
    requires WfConfig(c) && IsRun(c, run, steps) && LockSteps(steps, t, obj, rec, rsp, i0, i1, i2, i3)
    requires MarkOf(run[i3], obj) != Or1(MarkOf(run[i1], obj)) && NextOf(steps, t, i3, i4)
    ensures t in run[i0].threads && t in run[i4 + 1].threads && run[i4 + 1].mark == run[i4].mark
    ensures var held, mark := run[i0].threads[t].held, MarkOf(run[i0], obj);
      if HoldsLock(run[i0], t, obj) && rsp <= mark < rsp + Page(c) then
        run[i4 + 1].threads[t] == Thread(Idle, held + [Held(obj, rec)]) && Read(run[i4 + 1].disp, rec) == 0
      else
        run[i4 + 1].threads[t] == Thread(Slow, held)
  {
    hide WfConfig, Init, Follows, Enabled, RecursionTest, MarkOf, Page;
    ExchangeOutcome(c, run, steps, t, obj, rec, rsp, i0, i1, i2, i3);
    Resumes(c, run, steps, t, i3, i4);
    RelockExact(c, run, steps, i4, t);
    if HoldsLock(run[i0], t, obj) {
      LockReaches(c, run, steps, t, obj, rec, rsp, i0, i1, i2, i3);
      OwnMarkStays(c, run, steps, t, obj, i0, i3);
      OwnMarkStays(c, run, steps, t, obj, i0, i4);
    } else {
      assert !HoldsLock(run[i4], t, obj);
    }
  }

  /** Exactly when a lock leaves the fast path. A thread that holds the object does so if its outermost
      record is not within a page above the stack pointer. Any other thread does so unless the object is
      free at the exchange, and the mark it loaded was the header but for the unlocked bit. */
  lemma LeavesFastPath(c: Config, run: seq<Sys>, steps: seq<Step>, t: int, obj: int, rec: nat, rsp: nat,
                       i0: int, i1: int, i2: int, i3: int, i4: int)
    requires WfConfig(c) && IsRun(c, run, steps) && LockSteps(steps, t, obj, rec, rsp, i0, i1, i2, i3)
    requires MarkOf(run[i3], obj) != Or1(MarkOf(run[i1], obj)) ==> NextOf(steps, t, i3, i4)
    ensures obj in c.header && t in run[i0].threads
    ensures
      var end := if MarkOf(run[i3], obj) == Or1(MarkOf(run[i1], obj)) then i3 + 1 else i4 + 1;
      var slow := if HoldsLock(run[i0], t, obj)
                  then !(rsp <= MarkOf(run[i0], obj) < rsp + Page(c))
                  else !(Free(run[i3], obj) && Or1(MarkOf(run[i1], obj)) == c.header[obj]);
      var held := run[i0].threads[t].held;
      && t in run[end].threads
      && run[end].threads[t] == if slow then Thread(Slow, held) else Thread(Idle, held + [Held(obj, rec)])
  {
    hide WfConfig, Init, Follows, Enabled, HoldsLock, MarkOf, Page;
    ExchangeOutcome(c, run, steps, t, obj, rec, rsp, i0, i1, i2, i3);
    FreeMark(c, run, steps, i3, obj);
    if MarkOf(run[i3], obj) != Or1(MarkOf(run[i1], obj)) {
      RelockOutcome(c, run, steps, t, obj, rec, rsp, i0, i1, i2, i3, i4);
    } else if HoldsLock(run[i0], t, obj) {
      HolderFails(c, run, steps, t, obj, rec, rsp, i0, i1, i2, i3);
      assert false;
    }
  }

  /** The exchange of a thread that already holds the object fails. */
  lemma HolderFails(c: Config, run: seq<Sys>, steps: seq<Step>, t: int, obj: int, rec: nat, rsp: nat,
                    i0: int, i1: int, i2: int, i3: int)
    requires WfConfig(c) && IsRun(c, run, steps) && LockSteps(steps, t, obj, rec, rsp, i0, i1, i2, i3)
    requires t in run[i0].threads && HoldsLock(run[i0], t, obj)
    ensures MarkOf(run[i3], obj) != Or1(MarkOf(run[i1], obj))
  {
    hide WfConfig, Init, Follows, Enabled, HoldsLock, MarkOf, RecursionTest;
    LockReaches(c, run, steps, t, obj, rec, rsp, i0, i1, i2, i3);
    OwnMarkStays(c, run, steps, t, obj, i0, i3);
  }

  // ----- unlocking -----

  /** A recursive lock is released by dropping its record. No mark changes, and the object stays locked. */
  lemma UnlockRecursive(c: Config, run: seq<Sys>, steps: seq<Step>, t: int, i0: int, i1: int)
    requires WfConfig(c) && IsRun(c, run, steps)
    requires 0 <= i0 < |steps| && steps[i0] == BeginUnlock(t) && NextOf(steps, t, i0, i1)
    ensures t in run[i0].threads && run[i0].threads[t].held != []
    ensures var held := run[i0].threads[t].held;
      !Outer(held, |held| - 1) ==>
        && run[i1 + 1] == SetThread(run[i1], t, Thread(Idle, held[..|held| - 1]))
        && HoldsLock(run[i1 + 1], t, Last(held).obj)
  {
    hide WfConfig, Init, Follows, Outer, RecursionTest;
    StepAt(c, run, steps, i0);
    Resumes(c, run, steps, t, i0, i1);
    RunInv(c, run, steps, i1);
    DisplacedMeaning(c, run[i1], t);
    var held := run[i0].threads[t].held;
    if !Outer(held, |held| - 1) {
      var i := SomeOuter(held, |held| - 1);
      assert i < |held| - 1;
      assert run[i1 + 1].threads[t].held[i].obj == Last(held).obj;
    }
  }

  /** Releasing the outermost lock puts the header back into the mark, and the object is free. */
  lemma UnlockOuter(c: Config, run: seq<Sys>, steps: seq<Step>, t: int, i0: int, i1: int, i2: int, i3: int)
    requires WfConfig(c) && IsRun(c, run, steps)
    requires 0 <= i0 < |steps| && steps[i0] == BeginUnlock(t)
    requires NextOf(steps, t, i0, i1) && NextOf(steps, t, i1, i2) && NextOf(steps, t, i2, i3)
    requires t in run[i0].threads && run[i0].threads[t].held != []
    requires Outer(run[i0].threads[t].held, |run[i0].threads[t].held| - 1)
    ensures
      var held := run[i0].threads[t].held;
      var obj := Last(held).obj;
      && obj in c.header && obj in run[i3].mark && MarkOf(run[i3], obj) == Last(held).rec
      && run[i3 + 1] == SetThread(run[i3].(mark := run[i3].mark[obj := c.header[obj]]), t,
                                  Thread(Idle, held[..|held| - 1]))
      && Free(run[i3 + 1], obj)
  {
    hide WfConfig, Init, Follows, Outer, RecursionTest, HoldsLock, Inv;
    StepAt(c, run, steps, i0);
    Resumes(c, run, steps, t, i0, i1);
    RunInv(c, run, steps, i1);
    DisplacedMeaning(c, run[i1], t);
    Resumes(c, run, steps, t, i1, i2);
    Resumes(c, run, steps, t, i2, i3);
    RunInv(c, run, steps, i3);
    UnlockSucceeds(c, run[i3], t);
    ReleaseFacts(c, run[i3], t);
    FreeMark(c, run, steps, i3 + 1, Last(run[i0].threads[t].held).obj);
  }

  lemma ReleaseFacts(c: Config, s: Sys, t: int)
    requires Inv(c, s) && t in s.threads && s.threads[t].pc.CasBack?
    ensures var th := s.threads[t];
      && th.held != [] && Last(th.held) == Held(th.pc.obj, th.pc.rec)
      && th.pc.obj in c.header && th.pc.obj in s.mark && th.pc.hdr == c.header[th.pc.obj]
  {
    assert ThreadInv(c, s, t, s.threads[t]);
  }

  // ----- nesting -----

  /** The locks a thread has begun and not begun to undo. */
  function Nesting(steps: seq<Step>, t: int): seq<Held> {
    if steps == [] then []
    else
      var nest, last := Nesting(steps[..|steps| - 1], t), steps[|steps| - 1];
      if last.t != t then nest
      else match last
        case BeginLock(_, obj, rec, _) => nest + [Held(obj, rec)]
        case BeginUnlock(_) => if nest == [] then [] else nest[..|nest| - 1]
        case Advance(_) => nest
  }

  /** A lock in progress is not held yet, one being undone still is, and an idle thread holds exactly the
      locks it has begun and not undone. A lock left to the slow path is never held. */
  ghost predicate Nested(th: Thread, nest: seq<Held>) {
    match th.pc
    case Idle => th.held == nest
    case LoadMark(obj, rec, _) => nest == th.held + [Held(obj, rec)]
    case StoreDisplaced(obj, rec, _, _) => nest == th.held + [Held(obj, rec)]
    case CasMark(obj, rec, _, _) => nest == th.held + [Held(obj, rec)]
    case TestRecursion(obj, rec, _, _) => nest == th.held + [Held(obj, rec)]
    case LoadDisplaced(_) => th.held != [] && nest == th.held[..|th.held| - 1]
    case LoadObject(_, _) => th.held != [] && nest == th.held[..|th.held| - 1]
    case CasBack(_, _, _) => th.held != [] && nest == th.held[..|th.held| - 1]
    case Slow => nest != [] && th.held == nest[..|nest| - 1]
  }

  /** In every state of every run a thread holds what its steps so far say. */
  lemma {:induction false} HeldIsNesting(c: Config, run: seq<Sys>, steps: seq<Step>, n: nat, t: int)
    requires WfConfig(c) && IsRun(c, run, steps) && n < |run| && t in run[n].threads
    ensures Nested(run[n].threads[t], Nesting(steps[..n], t))
    decreases n
  {
    hide WfConfig, Init, Follows, Inv, Nested, Next, Enabled;
    if n == 0 {
      assert steps[..0] == [];
      StartNested(c, run[0], t);
    } else {
      StepAt(c, run, steps, n - 1);
      OthersKeep(c, run[n - 1], steps[n - 1]);
      HeldIsNesting(c, run, steps, n - 1, t);
      assert steps[..n][..n - 1] == steps[..n - 1];
      RunInv(c, run, steps, n - 1);
      NestedStep(c, run[n - 1], steps[n - 1], t, steps[..n - 1]);
      assert steps[..n - 1] + [steps[n - 1]] == steps[..n];
    }
  }

  lemma StartNested(c: Config, s: Sys, t: int)
    requires Init(c, s) && t in s.threads
    ensures Nested(s.threads[t], [])
  {
  }

  lemma NestedStep(c: Config, s: Sys, step: Step, t: int, steps: seq<Step>)
    requires Inv(c, s) && Enabled(c, s, step) && t in s.threads && t in Next(c, s, step).threads
    requires Nested(s.threads[t], Nesting(steps, t))
    ensures Nested(Next(c, s, step).threads[t], Nesting(steps + [step], t))
  {
    hide Next, Inv, Nested, Enabled;
    assert (steps + [step])[..|steps|] == steps;
    if step.t != t {
      OthersKeep(c, s, step);
    } else if step.Advance? {
      NestedAdvance(c, s, t, Nesting(steps, t));
    } else {
      NestedBegin(c, s, step, Nesting(steps, t));
    }
  }

  lemma NestedBegin(c: Config, s: Sys, step: Step, nest: seq<Held>)
    requires Enabled(c, s, step) && !step.Advance? && Nested(s.threads[step.t], nest)
    ensures step.t in Next(c, s, step).threads
    ensures var th := Next(c, s, step).threads[step.t];
      match step
      case BeginLock(_, obj, rec, _) => Nested(th, nest + [Held(obj, rec)])
      case BeginUnlock(_) => nest != [] && Nested(th, nest[..|nest| - 1])
  {
    hide InStack, Fresh, StackPointer;
  }

  lemma NestedAdvance(c: Config, s: Sys, t: int, nest: seq<Held>)
    requires Inv(c, s) && Enabled(c, s, Advance(t)) && Nested(s.threads[t], nest)
    ensures t in Next(c, s, Advance(t)).threads && Nested(Next(c, s, Advance(t)).threads[t], nest)
  {
    hide RecursionTest, Inv, Read, ReadObj, Or1;
    if s.threads[t].pc.CasBack? {
      UnlockSucceeds(c, s, t);
    }
  }

  /** Balanced locking and unlocking by any number of threads restores every mark. */
  lemma BalancedRestores(c: Config, run: seq<Sys>, steps: seq<Step>, n: nat)
    requires WfConfig(c) && IsRun(c, run, steps) && n < |run|
    requires forall t :: t in run[n].threads ==> run[n].threads[t].pc.Idle? && Nesting(steps[..n], t) == []
    ensures forall t :: t in run[n].threads ==> run[n].threads[t].held == []
    ensures run[n].mark == c.header
  {
    hide WfConfig, Init, Follows, Nesting;
    forall t | t in run[n].threads
      ensures run[n].threads[t].held == []
    {
      HeldIsNesting(c, run, steps, n, t);
    }
    RunInv(c, run, steps, n);
    forall o | o in c.header
      ensures run[n].mark[o] == c.header[o]
    {
      MarkMeaning(c, run, steps, n, o);
    }
  }
}

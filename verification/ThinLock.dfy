/** Thin locking of objects, as the fast paths of lock_object and unlock_object do it: any
number of threads and objects, one atomic memory access per step, all interleavings.

An object's mark word holds either its header or the address of a lock record on the stack of
the thread that locked it; the record keeps the displaced header, or zero for a recursive
lock.
*/
module ThinLock {
  import opened WordBits

  /** `wordBits` and `alignBits` are 64 and 3, or 32 and 2; the page size is 2^pageBits. Stack
      memory of thread t lies in [base(t), limit(t)). */
  datatype Config = Config(wordBits: nat, alignBits: nat, pageBits: nat,
                           header: map<int, nat>, base: map<int, nat>, limit: map<int, nat>)

  function Page(c: Config): nat { Pow2(c.pageBits) }

  predicate Aligned(c: Config, x: nat) { x % Pow2(c.alignBits) == 0 }

  /** Headers are unlocked words, with the lowest bit set. Stacks of different threads are at
      least a page apart and no stack reaches the end of memory. */
  ghost predicate WfConfig(c: Config) {
    && 1 <= c.alignBits <= c.pageBits < c.wordBits
    && (forall o :: o in c.header ==> c.header[o] % 2 == 1 && c.header[o] < Pow2(c.wordBits))
    && c.base.Keys == c.limit.Keys
    && (forall t :: t in c.base && t in c.limit ==>
          0 < c.base[t] <= c.limit[t] && c.limit[t] + Page(c) <= Pow2(c.wordBits))
    && (forall t, u :: t in c.base && t in c.limit && u in c.base && u in c.limit && t != u ==>
          c.limit[t] + Page(c) <= c.base[u] || c.limit[u] + Page(c) <= c.base[t])
  }

  // ----- the recursion test -----

  /** (hdr - rsp) & (aligned_mask - page_size), in words. */
  function RecursionTest(c: Config, hdr: nat, rsp: nat): nat {
    And(WordSub(hdr, rsp, c.wordBits), WordSub(Pow2(c.alignBits) - 1, Page(c), c.wordBits))
  }

  lemma SmallMod(x: int, m: int)
    requires 0 <= x < m
    ensures x % m == x && (x - m) % m == x
  {
    DivModUnique(x, m, 0, x);
    DivModUnique(x - m, m, -1, x);
  }

  /** The test is zero exactly when the header is an aligned address whose distance above the stack
      pointer, in words, is below the page size. Without wrap-around that is an address less than a page
      above the stack pointer. */
  lemma RecursionTestExact(c: Config, hdr: nat, rsp: nat)
    requires 1 <= c.alignBits <= c.pageBits < c.wordBits
    requires hdr < Pow2(c.wordBits) && rsp < Pow2(c.wordBits) && Aligned(c, rsp)
    ensures RecursionTest(c, hdr, rsp) == 0 <==> WordSub(hdr, rsp, c.wordBits) < Page(c) && Aligned(c, hdr)
    ensures rsp + Page(c) <= Pow2(c.wordBits) ==>
              (RecursionTest(c, hdr, rsp) == 0 <==> rsp <= hdr < rsp + Page(c) && Aligned(c, hdr))
  {
    hide Pow2, WordSub, And, Low;
    var w, a, k := c.wordBits, c.alignBits, c.pageBits;
    var x := WordSub(hdr, rsp, w);
    DistanceWord(c, hdr, rsp);
    MaskWord(c);
    AndHighLow(x, a, k, w);
    LowAll(x, k);
    LowIsMod(x, a);
    AlignedDistance(c, hdr, rsp);
  }

  /** aligned_mask - page_size has ones below the alignment and from the page size on. */
  lemma MaskWord(c: Config)
    requires 1 <= c.alignBits <= c.pageBits < c.wordBits
    ensures Page(c) <= Pow2(c.wordBits)
    ensures WordSub(Pow2(c.alignBits) - 1, Page(c), c.wordBits)
         == Pow2(c.wordBits) - Page(c) + Pow2(c.alignBits) - 1
  {
    Pow2Mono(c.alignBits, c.pageBits);
    Pow2Mono(c.pageBits, c.wordBits - 1);
    SmallMod(Pow2(c.wordBits) - Page(c) + Pow2(c.alignBits) - 1, Pow2(c.wordBits));
  }

  /** Without wrap-around the word difference is below the page size only for addresses above. */
  lemma DistanceWord(c: Config, hdr: nat, rsp: nat)
    requires hdr < Pow2(c.wordBits) && rsp < Pow2(c.wordBits)
    ensures WordSub(hdr, rsp, c.wordBits) == if rsp <= hdr then hdr - rsp else hdr - rsp + Pow2(c.wordBits)
    ensures WordSub(hdr, rsp, c.wordBits) < Pow2(c.wordBits)
    ensures rsp + Page(c) <= Pow2(c.wordBits) ==>
              (WordSub(hdr, rsp, c.wordBits) < Page(c) <==> rsp <= hdr < rsp + Page(c))
  {
    if rsp <= hdr {
      SmallMod(hdr - rsp, Pow2(c.wordBits));
    } else {
      SmallMod(hdr - rsp + Pow2(c.wordBits), Pow2(c.wordBits));
    }
  }

  lemma AlignedDistance(c: Config, hdr: nat, rsp: nat)
    requires c.alignBits <= c.wordBits && hdr < Pow2(c.wordBits) && rsp < Pow2(c.wordBits) && Aligned(c, rsp)
    ensures Aligned(c, WordSub(hdr, rsp, c.wordBits)) <==> Aligned(c, hdr)
  {
    hide Pow2;
    var d, p := Pow2(c.alignBits), Pow2(c.wordBits);
    DistanceWord(c, hdr, rsp);
    if rsp <= hdr {
      AlignedDifference(hdr, rsp, d);
    } else {
      var m := Pow2(c.wordBits - c.alignBits);
      Pow2Split(c.alignBits, c.wordBits);
      AlignedDifference(hdr + p, rsp, d);
      ModShift(hdr, d, m);
    }
  }

  lemma AlignedDifference(x: nat, y: nat, d: nat)
    requires y <= x && d > 0 && y % d == 0
    ensures (x - y) % d == 0 <==> x % d == 0
  {
    var q := y / d;
    assert y == d * q;
    var p, r := x / d, x % d;
    assert x == d * p + r;
    assert x - y == d * (p - q) + r;
    DivModUnique(x - y, d, p - q, r);
  }

  // ----- the step system -----

  datatype Held = Held(obj: int, rec: nat)

  /** Where a thread is. `hdr` is the header register, `rsp` its stack pointer during a lock. */
  datatype Pc =
    | Idle
    | LoadMark(obj: int, rec: nat, rsp: nat)
    | StoreDisplaced(obj: int, rec: nat, rsp: nat, hdr: nat)
    | CasMark(obj: int, rec: nat, rsp: nat, hdr: nat)
    | TestRecursion(obj: int, rec: nat, rsp: nat, hdr: nat)
    | LoadDisplaced(rec: nat)
    | LoadObject(rec: nat, hdr: nat)
    | CasBack(obj: int, rec: nat, hdr: nat)
    | Slow

  /** `held` lists the completed locks, outermost first. */
  datatype Thread = Thread(pc: Pc, held: seq<Held>)

  /** Mark words, the two words of every lock record, and the threads. */
  datatype Sys = Sys(mark: map<int, nat>, disp: map<nat, nat>, recObj: map<nat, int>, threads: map<int, Thread>)

  function Read(m: map<nat, nat>, a: nat): nat { if a in m then m[a] else 0 }
  function ReadObj(m: map<nat, int>, a: nat): int { if a in m then m[a] else 0 }

  predicate InStack(c: Config, t: int, x: nat) {
    t in c.base && t in c.limit && c.base[t] <= x < c.limit[t] && Aligned(c, x)
  }

  /** A lock may start with any free record on the thread's own stack; unlocking takes the
      locks in reverse order. */
  datatype Step = BeginLock(t: int, obj: int, rec: nat, rsp: nat) | BeginUnlock(t: int) | Advance(t: int)

  ghost predicate Fresh(held: seq<Held>, rec: nat) {
    forall i :: 0 <= i < |held| ==> held[i].rec != rec
  }

  ghost predicate StackPointer(c: Config, t: int, rsp: nat) {
    t in c.base && t in c.limit && c.base[t] <= rsp <= c.limit[t] && Aligned(c, rsp)
  }

  ghost predicate Enabled(c: Config, s: Sys, step: Step) {
    && step.t in s.threads
    && match step
       case BeginLock(t, obj, rec, rsp) =>
         && s.threads[t].pc.Idle? && obj in s.mark
         && InStack(c, t, rec) && Fresh(s.threads[t].held, rec) && StackPointer(c, t, rsp)
       case BeginUnlock(t) => s.threads[t].pc.Idle? && s.threads[t].held != []
       case Advance(t) => !s.threads[t].pc.Idle? && !s.threads[t].pc.Slow?
  }

  function Last(held: seq<Held>): Held
    requires held != []
  {
    held[|held| - 1]
  }

  function Released(th: Thread): Thread {
    Thread(Idle, if th.held == [] then [] else th.held[..|th.held| - 1])
  }

  function Acquired(th: Thread, obj: int, rec: nat): Thread {
    Thread(Idle, th.held + [Held(obj, rec)])
  }

  function MarkOf(s: Sys, obj: int): nat { if obj in s.mark then s.mark[obj] else 0 }

  function SetThread(s: Sys, t: int, th: Thread): Sys { s.(threads := s.threads[t := th]) }

  ghost function Next(c: Config, s: Sys, step: Step): Sys
    requires Enabled(c, s, step)
  {
    var t := step.t;
    var th := s.threads[t];
    match step
    case BeginLock(_, obj, rec, rsp) =>
      SetThread(s.(recObj := s.recObj[rec := obj]), t, th.(pc := LoadMark(obj, rec, rsp)))
    case BeginUnlock(_) =>
      SetThread(s, t, th.(pc := LoadDisplaced(Last(th.held).rec)))
    case Advance(_) =>
      match th.pc
      case LoadMark(obj, rec, rsp) =>
        SetThread(s, t, th.(pc := StoreDisplaced(obj, rec, rsp, Or1(MarkOf(s, obj)))))
      case StoreDisplaced(obj, rec, rsp, hdr) =>
        SetThread(s.(disp := s.disp[rec := hdr]), t, th.(pc := CasMark(obj, rec, rsp, hdr)))
      case CasMark(obj, rec, rsp, hdr) =>
        if MarkOf(s, obj) == hdr then SetThread(s.(mark := s.mark[obj := rec]), t, Acquired(th, obj, rec))
        else SetThread(s, t, th.(pc := TestRecursion(obj, rec, rsp, MarkOf(s, obj))))
      case TestRecursion(obj, rec, rsp, hdr) =>
        var x := RecursionTest(c, hdr, rsp);
        SetThread(s.(disp := s.disp[rec := x]), t, if x == 0 then Acquired(th, obj, rec) else th.(pc := Slow))
      case LoadDisplaced(rec) =>
        var hdr := Read(s.disp, rec);
        SetThread(s, t, if hdr == 0 then Released(th) else th.(pc := LoadObject(rec, hdr)))
      case LoadObject(rec, hdr) =>
        SetThread(s, t, th.(pc := CasBack(ReadObj(s.recObj, rec), rec, hdr)))
      case CasBack(obj, rec, hdr) =>
        if MarkOf(s, obj) == rec then SetThread(s.(mark := s.mark[obj := hdr]), t, Released(th))
        else SetThread(s, t, th.(pc := Slow))
  }

  ghost predicate Init(c: Config, s: Sys) {
    && s.mark == c.header
    && s.threads.Keys == c.base.Keys
    && forall t :: t in s.threads ==> s.threads[t] == Thread(Idle, [])
  }

  // ----- the invariant -----

  /** The lock at position `i` is the thread's outermost lock of its object. */
  ghost predicate Outer(held: seq<Held>, i: int)
    requires 0 <= i < |held|
  {
    forall j :: 0 <= j < i ==> held[j].obj != held[i].obj
  }

  /** The thread locked `obj` with `rec` as outermost record. */
  ghost predicate OwnsWith(held: seq<Held>, obj: int, rec: nat) {
    exists i :: 0 <= i < |held| && held[i] == Held(obj, rec) && Outer(held, i)
  }

  /** Records are the thread's own; an outermost record holds the header and is what the mark
      points to, a recursive one holds zero. */
  ghost predicate HeldInv(c: Config, s: Sys, t: int, held: seq<Held>) {
    && (forall i :: 0 <= i < |held| ==>
          && held[i].obj in s.mark && held[i].obj in c.header && InStack(c, t, held[i].rec)
          && ReadObj(s.recObj, held[i].rec) == held[i].obj
          && (if Outer(held, i)
              then Read(s.disp, held[i].rec) == c.header[held[i].obj] && s.mark[held[i].obj] == held[i].rec
              else Read(s.disp, held[i].rec) == 0))
    && (forall i, j :: 0 <= i < j < |held| ==> held[i].rec != held[j].rec)
  }

  ghost predicate Attempt(c: Config, s: Sys, t: int, held: seq<Held>, obj: int, rec: nat, rsp: nat) {
    && obj in s.mark && InStack(c, t, rec) && Fresh(held, rec) && StackPointer(c, t, rsp)
    && ReadObj(s.recObj, rec) == obj
  }

  /** What a failed exchange saw: a header, a record of another thread, or the thread's own
      outermost record, which stays valid because only the thread itself can release it. */
  ghost predicate Seen(c: Config, t: int, held: seq<Held>, obj: int, hdr: nat) {
    && hdr < Pow2(c.wordBits)
    && (hdr % 2 == 1 || (exists u :: u != t && InStack(c, u, hdr)) || OwnsWith(held, obj, hdr))
  }

  ghost predicate PcInv(c: Config, s: Sys, t: int, th: Thread) {
    match th.pc
    case Idle => true
    case LoadMark(obj, rec, rsp) => Attempt(c, s, t, th.held, obj, rec, rsp)
    case StoreDisplaced(obj, rec, rsp, hdr) => Attempt(c, s, t, th.held, obj, rec, rsp) && hdr % 2 == 1
    case CasMark(obj, rec, rsp, hdr) =>
      Attempt(c, s, t, th.held, obj, rec, rsp) && hdr % 2 == 1 && Read(s.disp, rec) == hdr
    case TestRecursion(obj, rec, rsp, hdr) =>
      Attempt(c, s, t, th.held, obj, rec, rsp) && Seen(c, t, th.held, obj, hdr)
    case LoadDisplaced(rec) => th.held != [] && Last(th.held).rec == rec
    case LoadObject(rec, hdr) =>
      && th.held != [] && Last(th.held).rec == rec && Outer(th.held, |th.held| - 1)
      && Last(th.held).obj in c.header && hdr == c.header[Last(th.held).obj]
    case CasBack(obj, rec, hdr) =>
      && th.held != [] && Last(th.held) == Held(obj, rec) && Outer(th.held, |th.held| - 1)
      && obj in c.header && hdr == c.header[obj]
    case Slow => true
  }

  ghost predicate ThreadInv(c: Config, s: Sys, t: int, th: Thread) {
    HeldInv(c, s, t, th.held) && PcInv(c, s, t, th)
  }

  /** The mark is the header, or the outermost record of a thread that holds the object. */
  ghost predicate MarkInv(c: Config, s: Sys, o: int)
    requires o in s.mark && o in c.header
  {
    s.mark[o] == c.header[o] || exists t :: t in s.threads && OwnsWith(s.threads[t].held, o, s.mark[o])
  }

  ghost predicate Inv(c: Config, s: Sys) {
    && WfConfig(c) && s.mark.Keys == c.header.Keys
    && (forall t :: t in s.threads ==> ThreadInv(c, s, t, s.threads[t]))
    && (forall o :: o in s.mark ==> MarkInv(c, s, o))
  }

  // ----- one step keeps the invariant -----

  lemma EvenInStack(c: Config, t: int, x: nat)
    requires WfConfig(c) && InStack(c, t, x)
    ensures 0 < x < Pow2(c.wordBits) && x % 2 == 0
  {
    ModHalf(x, Pow2(c.alignBits - 1));
  }

  lemma OneStack(c: Config, t: int, u: int, x: nat)
    requires WfConfig(c) && InStack(c, t, x) && InStack(c, u, x)
    ensures t == u
  {
  }

  lemma ApartStacks(c: Config, t: int, u: int, x: nat, y: nat)
    requires WfConfig(c) && t != u && InStack(c, t, x) && InStack(c, u, y)
    ensures x != y
  {
  }

  /** Thread `t` wrote at most its own records, and marks no other thread relies on. */
  ghost predicate Frame(c: Config, s: Sys, s': Sys, t: int) {
    && s'.mark.Keys == s.mark.Keys
    && (forall x :: !InStack(c, t, x) ==>
          Read(s'.disp, x) == Read(s.disp, x) && ReadObj(s'.recObj, x) == ReadObj(s.recObj, x))
    && (forall u, o, rec :: u in s.threads && u != t && OwnsWith(s.threads[u].held, o, rec) && o in s.mark ==>
          s'.mark[o] == s.mark[o])
  }

  lemma OtherThread(c: Config, s: Sys, s': Sys, t: int, u: int)
    requires Inv(c, s) && Frame(c, s, s', t) && u in s.threads && u != t
    ensures ThreadInv(c, s', u, s.threads[u])
  {
    var th := s.threads[u];
    assert ThreadInv(c, s, u, th);
    forall x | InStack(c, u, x)
      ensures Read(s'.disp, x) == Read(s.disp, x) && ReadObj(s'.recObj, x) == ReadObj(s.recObj, x)
    {
      if InStack(c, t, x) {
        OneStack(c, t, u, x);
      }
    }
    forall i | 0 <= i < |th.held| && Outer(th.held, i)
      ensures s'.mark[th.held[i].obj] == s.mark[th.held[i].obj]
    {
      assert OwnsWith(th.held, th.held[i].obj, th.held[i].rec);
    }
  }

  lemma Assemble(c: Config, s: Sys, s': Sys, t: int)
    requires Inv(c, s) && Frame(c, s, s', t) && t in s.threads
    requires t in s'.threads && s'.threads == s.threads[t := s'.threads[t]]
    requires ThreadInv(c, s', t, s'.threads[t])
    requires forall o :: o in s.mark ==> MarkInv(c, s', o)
    ensures Inv(c, s')
  {
    hide ThreadInv, MarkInv, Frame;
    forall u | u in s'.threads
      ensures ThreadInv(c, s', u, s'.threads[u])
    {
      if u != t {
        OtherThread(c, s, s', t, u);
      }
    }
    assert s'.mark.Keys == s.mark.Keys by {
      FrameKeys(c, s, s', t);
    }
  }

  lemma FrameKeys(c: Config, s: Sys, s': Sys, t: int)
    requires Frame(c, s, s', t)
    ensures s'.mark.Keys == s.mark.Keys
  {
  }

  /** Marks stay justified while no thread gives up a lock. */
  lemma MarksStay(c: Config, s: Sys, s': Sys, t: int)
    requires Inv(c, s) && t in s.threads && t in s'.threads && s'.threads == s.threads[t := s'.threads[t]]
    requires s'.mark == s.mark && s.threads[t].held <= s'.threads[t].held
    ensures forall o :: o in s.mark ==> MarkInv(c, s', o)
  {
    forall o | o in s.mark
      ensures MarkInv(c, s', o)
    {
      assert MarkInv(c, s, o);
      if s.mark[o] != c.header[o] {
        var u :| u in s.threads && OwnsWith(s.threads[u].held, o, s.mark[o]);
        if u == t {
          OwnsPrefix(s.threads[t].held, s'.threads[t].held, o, s.mark[o]);
        }
        assert u in s'.threads && OwnsWith(s'.threads[u].held, o, s.mark[o]);
      }
    }
  }

  lemma OwnsPrefix(a: seq<Held>, b: seq<Held>, obj: int, rec: nat)
    requires a <= b && OwnsWith(a, obj, rec)
    ensures OwnsWith(b, obj, rec)
  {
    var i :| 0 <= i < |a| && a[i] == Held(obj, rec) && Outer(a, i);
    assert Outer(b, i);
  }

  /** A step that only changes the thread's position or its own free record. */
  lemma QuietStep(c: Config, s: Sys, s': Sys, t: int)
    requires Inv(c, s) && t in s.threads && t in s'.threads && s'.threads == s.threads[t := s'.threads[t]]
    requires s'.mark == s.mark && s.threads[t].held == s'.threads[t].held
    requires forall x :: !InStack(c, t, x) ==>
               Read(s'.disp, x) == Read(s.disp, x) && ReadObj(s'.recObj, x) == ReadObj(s.recObj, x)
    requires ThreadInv(c, s', t, s'.threads[t])
    ensures Inv(c, s')
  {
    MarksStay(c, s, s', t);
    Assemble(c, s, s', t);
  }

  /** Locks already held do not depend on a record that is still free. */
  lemma HeldStays(c: Config, s: Sys, s': Sys, t: int, held: seq<Held>, rec: nat)
    requires HeldInv(c, s, t, held) && s'.mark == s.mark && Fresh(held, rec)
    requires forall x :: x != rec ==>
               Read(s'.disp, x) == Read(s.disp, x) && ReadObj(s'.recObj, x) == ReadObj(s.recObj, x)
    ensures HeldInv(c, s', t, held)
  {
  }

  lemma {:induction false} SomeOuter(held: seq<Held>, j: int) returns (i: int)
    requires 0 <= j < |held|
    ensures 0 <= i <= j && held[i].obj == held[j].obj && Outer(held, i)
    decreases j
  {
    i := j;
    if !Outer(held, j) {
      var k :| 0 <= k < j && held[k].obj == held[j].obj;
      i := SomeOuter(held, k);
    }
  }

  lemma BeginStep(c: Config, s: Sys, step: Step)
    requires Inv(c, s) && Enabled(c, s, step) && !step.Advance?
    ensures Inv(c, Next(c, s, step))
  {
    var t, s' := step.t, Next(c, s, step);
    assert ThreadInv(c, s, t, s.threads[t]);
    if step.BeginLock? {
      HeldStays(c, s, s', t, s.threads[t].held, step.rec);
    }
    QuietStep(c, s, s', t);
  }

  lemma LoadMarkStep(c: Config, s: Sys, t: int)
    requires Inv(c, s) && Enabled(c, s, Advance(t)) && s.threads[t].pc.LoadMark?
    ensures Inv(c, Next(c, s, Advance(t)))
  {
    hide HeldInv, MarkInv, OwnsWith, InStack;
    var s' := Next(c, s, Advance(t));
    assert ThreadInv(c, s, t, s.threads[t]);
    HeldStays(c, s, s', t, s.threads[t].held, s.threads[t].pc.rec);
    QuietStep(c, s, s', t);
  }

  lemma StoreDisplacedStep(c: Config, s: Sys, t: int)
    requires Inv(c, s) && Enabled(c, s, Advance(t)) && s.threads[t].pc.StoreDisplaced?
    ensures Inv(c, Next(c, s, Advance(t)))
  {
    hide HeldInv, MarkInv, OwnsWith, InStack;
    var s' := Next(c, s, Advance(t));
    assert ThreadInv(c, s, t, s.threads[t]);
    HeldStays(c, s, s', t, s.threads[t].held, s.threads[t].pc.rec);
    QuietStep(c, s, s', t);
  }

  /** A mark that is no header points into the stack of the thread that holds the object. */
  lemma MarkedBy(c: Config, s: Sys, o: int) returns (u: int)
    requires Inv(c, s) && o in s.mark && s.mark[o] != c.header[o]
    ensures u in s.threads && OwnsWith(s.threads[u].held, o, s.mark[o])
    ensures InStack(c, u, s.mark[o]) && s.mark[o] % 2 == 0 && 0 < s.mark[o] < Pow2(c.wordBits)
  {
    assert MarkInv(c, s, o);
    u :| u in s.threads && OwnsWith(s.threads[u].held, o, s.mark[o]);
    assert ThreadInv(c, s, u, s.threads[u]);
    EvenInStack(c, u, s.mark[o]);
  }

  /** Whoever holds an object is named by its mark. */
  lemma HolderIsMarked(c: Config, s: Sys, u: int, i: int)
    requires Inv(c, s) && u in s.threads && 0 <= i < |s.threads[u].held|
    ensures s.threads[u].held[i].obj in s.mark
    ensures InStack(c, u, s.mark[s.threads[u].held[i].obj])
    ensures OwnsWith(s.threads[u].held, s.threads[u].held[i].obj, s.mark[s.threads[u].held[i].obj])
    ensures s.mark[s.threads[u].held[i].obj] % 2 == 0
  {
    var held := s.threads[u].held;
    assert ThreadInv(c, s, u, s.threads[u]);
    var k := SomeOuter(held, i);
    assert held[k] == Held(held[i].obj, s.mark[held[i].obj]);
    EvenInStack(c, u, held[k].rec);
  }

  lemma FailedCasStep(c: Config, s: Sys, t: int)
    requires Inv(c, s) && Enabled(c, s, Advance(t)) && s.threads[t].pc.CasMark?
    requires MarkOf(s, s.threads[t].pc.obj) != s.threads[t].pc.hdr
    ensures Inv(c, Next(c, s, Advance(t)))
  {
    var s', th := Next(c, s, Advance(t)), s.threads[t];
    var obj := th.pc.obj;
    assert ThreadInv(c, s, t, th);
    if s.mark[obj] != c.header[obj] {
      var u := MarkedBy(c, s, obj);
    }
    assert Seen(c, t, th.held, obj, s.mark[obj]);
    HeldStays(c, s, s', t, th.held, th.pc.rec);
    QuietStep(c, s, s', t);
  }

  /** The exchange succeeds only on an unlocked header, so the record holds that header. */
  lemma LockedFresh(c: Config, s: Sys, t: int)
    requires Inv(c, s) && Enabled(c, s, Advance(t)) && s.threads[t].pc.CasMark?
    requires MarkOf(s, s.threads[t].pc.obj) == s.threads[t].pc.hdr
    ensures s.mark[s.threads[t].pc.obj] == c.header[s.threads[t].pc.obj] == Read(s.disp, s.threads[t].pc.rec)
    ensures forall u, i :: u in s.threads && 0 <= i < |s.threads[u].held| ==>
              s.threads[u].held[i].obj != s.threads[t].pc.obj
  {
    var obj := s.threads[t].pc.obj;
    assert ThreadInv(c, s, t, s.threads[t]);
    if s.mark[obj] != c.header[obj] {
      var u := MarkedBy(c, s, obj);
    }
    forall u, i | u in s.threads && 0 <= i < |s.threads[u].held|
      ensures s.threads[u].held[i].obj != obj
    {
      HolderIsMarked(c, s, u, i);
    }
  }

  lemma CasStep(c: Config, s: Sys, t: int)
    requires Inv(c, s) && Enabled(c, s, Advance(t)) && s.threads[t].pc.CasMark?
    requires MarkOf(s, s.threads[t].pc.obj) == s.threads[t].pc.hdr
    ensures Inv(c, Next(c, s, Advance(t)))
  {
    var s', th := Next(c, s, Advance(t)), s.threads[t];
    var obj, rec := th.pc.obj, th.pc.rec;
    LockedFresh(c, s, t);
    assert ThreadInv(c, s, t, th);
    var held' := th.held + [Held(obj, rec)];
    AcquiredOuter(c, s, s', t, th.held, obj, rec);
    forall o | o in s.mark
      ensures MarkInv(c, s', o)
    {
      CasMarks(c, s, s', t, o);
    }
    assert Frame(c, s, s', t);
    Assemble(c, s, s', t);
  }

  lemma OuterAppend(held: seq<Held>, h: Held, i: int)
    requires 0 <= i < |held|
    ensures Outer(held + [h], i) <==> Outer(held, i)
  {
    assert forall j :: 0 <= j <= i ==> (held + [h])[j] == held[j];
  }

  lemma AcquiredOuter(c: Config, s: Sys, s': Sys, t: int, held: seq<Held>, obj: int, rec: nat)
    requires HeldInv(c, s, t, held) && Fresh(held, rec) && InStack(c, t, rec) && obj in s.mark && obj in c.header
    requires s' == s.(mark := s.mark[obj := rec], threads := s'.threads)
    requires ReadObj(s.recObj, rec) == obj && Read(s.disp, rec) == c.header[obj]
    requires forall i :: 0 <= i < |held| ==> held[i].obj != obj
    ensures HeldInv(c, s', t, held + [Held(obj, rec)])
  {
    var held' := held + [Held(obj, rec)];
    forall i | 0 <= i < |held|
      ensures Outer(held', i) <==> Outer(held, i)
    {
      OuterAppend(held, Held(obj, rec), i);
    }
    assert Outer(held', |held|);
  }

  lemma CasMarks(c: Config, s: Sys, s': Sys, t: int, o: int)
    requires Inv(c, s) && t in s.threads && o in s.mark && s.threads[t].pc.CasMark? && s.threads[t].pc.obj in s.mark
    requires var pc := s.threads[t].pc;
             && s' == SetThread(s.(mark := s.mark[pc.obj := pc.rec]), t, Acquired(s.threads[t], pc.obj, pc.rec))
             && forall i :: 0 <= i < |s.threads[t].held| ==> s.threads[t].held[i].obj != pc.obj
    ensures MarkInv(c, s', o)
  {
    var pc, held := s.threads[t].pc, s.threads[t].held;
    var held' := held + [Held(pc.obj, pc.rec)];
    if o == pc.obj {
      assert Outer(held', |held|) && held'[|held|] == Held(o, pc.rec);
      assert OwnsWith(s'.threads[t].held, o, pc.rec);
    } else if s.mark[o] != c.header[o] {
      var u := MarkedBy(c, s, o);
      if u == t {
        OwnsPrefix(held, held', o, s.mark[o]);
      }
      assert OwnsWith(s'.threads[u].held, o, s'.mark[o]);
    }
  }

  /** A zero displaced header is written only by the thread that holds the object. */
  lemma RecursionIsOwned(c: Config, s: Sys, t: int)
    requires Inv(c, s) && Enabled(c, s, Advance(t)) && s.threads[t].pc.TestRecursion?
    requires RecursionTest(c, s.threads[t].pc.hdr, s.threads[t].pc.rsp) == 0
    ensures OwnsWith(s.threads[t].held, s.threads[t].pc.obj, s.threads[t].pc.hdr)
  {
    var pc := s.threads[t].pc;
    assert ThreadInv(c, s, t, s.threads[t]);
    RecursionTestExact(c, pc.hdr, pc.rsp);
    ModHalf(pc.hdr, Pow2(c.alignBits - 1));
    assert pc.hdr % 2 == 0;
    forall u | u != t
      ensures !InStack(c, u, pc.hdr)
    {
    }
  }

  lemma AcquiredInner(c: Config, s: Sys, s': Sys, t: int, held: seq<Held>, obj: int, rec: nat, hdr: nat)
    requires HeldInv(c, s, t, held) && Fresh(held, rec) && InStack(c, t, rec) && obj in s.mark && obj in c.header
    requires s' == s.(disp := s.disp[rec := 0], threads := s'.threads)
    requires ReadObj(s.recObj, rec) == obj && OwnsWith(held, obj, hdr)
    ensures HeldInv(c, s', t, held + [Held(obj, rec)])
  {
    var held' := held + [Held(obj, rec)];
    forall i | 0 <= i < |held|
      ensures Outer(held', i) <==> Outer(held, i)
    {
      OuterAppend(held, Held(obj, rec), i);
    }
    assert !Outer(held', |held|) by {
      var i :| 0 <= i < |held| && held[i] == Held(obj, hdr) && Outer(held, i);
      assert held'[i].obj == held'[|held|].obj;
    }
  }

  lemma TestStep(c: Config, s: Sys, t: int)
    requires Inv(c, s) && Enabled(c, s, Advance(t)) && s.threads[t].pc.TestRecursion?
    ensures Inv(c, Next(c, s, Advance(t)))
  {
    var s', th := Next(c, s, Advance(t)), s.threads[t];
    var pc := th.pc;
    assert ThreadInv(c, s, t, th);
    if RecursionTest(c, pc.hdr, pc.rsp) == 0 {
      RecursionIsOwned(c, s, t);
      AcquiredInner(c, s, s', t, th.held, pc.obj, pc.rec, pc.hdr);
      MarksStay(c, s, s', t);
      assert Frame(c, s, s', t);
      Assemble(c, s, s', t);
    } else {
      HeldStays(c, s, s', t, th.held, pc.rec);
      QuietStep(c, s, s', t);
    }
  }

  lemma HeldPop(c: Config, s: Sys, t: int, held: seq<Held>)
    requires HeldInv(c, s, t, held) && held != []
    ensures HeldInv(c, s, t, held[..|held| - 1])
  {
    var held' := held[..|held| - 1];
    forall i | 0 <= i < |held'|
      ensures held'[i] == held[i] && (Outer(held', i) <==> Outer(held, i))
    {
    }
  }

  lemma OwnsPop(held: seq<Held>, obj: int, rec: nat)
    requires OwnsWith(held, obj, rec) && held != []
    requires Last(held) != Held(obj, rec) || !Outer(held, |held| - 1)
    ensures OwnsWith(held[..|held| - 1], obj, rec)
  {
    var i :| 0 <= i < |held| && held[i] == Held(obj, rec) && Outer(held, i);
    assert Outer(held[..|held| - 1], i);
  }

  /** What the record of the last lock holds: its object, and zero exactly if the lock is recursive. */
  lemma LastRecord(c: Config, s: Sys, t: int, held: seq<Held>)
    requires WfConfig(c) && HeldInv(c, s, t, held) && held != []
    ensures Last(held).obj in c.header && c.header[Last(held).obj] != 0
    ensures ReadObj(s.recObj, Last(held).rec) == Last(held).obj
    ensures Read(s.disp, Last(held).rec) == if Outer(held, |held| - 1) then c.header[Last(held).obj] else 0
  {
    hide InStack, Outer;
    assert held[|held| - 1] == Last(held);
  }

  /** The displaced header of the last lock is zero exactly if the lock is recursive. */
  lemma DisplacedMeaning(c: Config, s: Sys, t: int)
    requires Inv(c, s) && t in s.threads && s.threads[t].pc.LoadDisplaced?
    ensures var held, rec := s.threads[t].held, s.threads[t].pc.rec;
            && held != [] && Last(held).obj in c.header && ReadObj(s.recObj, rec) == Last(held).obj
            && Last(held).rec == rec
            && Read(s.disp, rec) == (if Outer(held, |held| - 1) then c.header[Last(held).obj] else 0)
            && c.header[Last(held).obj] != 0
  {
    hide MarkInv, OwnsWith, InStack, WfConfig, HeldInv, Outer;
    assert ThreadInv(c, s, t, s.threads[t]);
    LastRecord(c, s, t, s.threads[t].held);
  }

  lemma LoadDisplacedStep(c: Config, s: Sys, t: int)
    requires Inv(c, s) && Enabled(c, s, Advance(t)) && s.threads[t].pc.LoadDisplaced?
    ensures Inv(c, Next(c, s, Advance(t)))
  {
    hide HeldInv, MarkInv, OwnsWith, Outer, InStack;
    var s', th := Next(c, s, Advance(t)), s.threads[t];
    DisplacedMeaning(c, s, t);
    assert ThreadInv(c, s, t, th);
    if Read(s.disp, th.pc.rec) == 0 {
      ReleaseInner(c, s, t);
    } else {
      HeldSame(c, s, s', t, th.held);
      QuietStep(c, s, s', t);
    }
  }

  lemma LoadObjectStep(c: Config, s: Sys, t: int)
    requires Inv(c, s) && Enabled(c, s, Advance(t)) && s.threads[t].pc.LoadObject?
    ensures Inv(c, Next(c, s, Advance(t)))
  {
    hide WfConfig, HeldInv, MarkInv, OwnsWith, Outer, InStack;
    var s', th := Next(c, s, Advance(t)), s.threads[t];
    assert ThreadInv(c, s, t, th);
    LastRecord(c, s, t, th.held);
    HeldSame(c, s, s', t, th.held);
    QuietStep(c, s, s', t);
  }

  lemma ReleaseInner(c: Config, s: Sys, t: int)
    requires Inv(c, s) && t in s.threads && s.threads[t].held != []
    requires !Outer(s.threads[t].held, |s.threads[t].held| - 1)
    ensures Inv(c, SetThread(s, t, Released(s.threads[t])))
  {
    hide HeldInv, MarkInv, Outer, OwnsWith, InStack;
    var s', th := SetThread(s, t, Released(s.threads[t])), s.threads[t];
    assert ThreadInv(c, s, t, th);
    HeldPop(c, s, t, th.held);
    HeldSame(c, s, s', t, th.held[..|th.held| - 1]);
    forall o | o in s.mark
      ensures MarkInv(c, s', o)
    {
      PopMarks(c, s, s', t, o);
    }
    assert Frame(c, s, s', t);
    Assemble(c, s, s', t);
  }

  lemma HeldSame(c: Config, s: Sys, s': Sys, t: int, held: seq<Held>)
    requires HeldInv(c, s, t, held) && s'.mark == s.mark && s'.disp == s.disp && s'.recObj == s.recObj
    ensures HeldInv(c, s', t, held)
  {
  }

  lemma PopMarks(c: Config, s: Sys, s': Sys, t: int, o: int)
    requires Inv(c, s) && t in s.threads && s.threads[t].held != [] && o in s.mark
    requires s' == SetThread(s, t, Released(s.threads[t])) && !Outer(s.threads[t].held, |s.threads[t].held| - 1)
    ensures MarkInv(c, s', o)
  {
    hide ThreadInv, InStack, OwnsWith;
    if s.mark[o] != c.header[o] {
      var u := MarkedBy(c, s, o);
      if u == t {
        OwnsPop(s.threads[t].held, o, s.mark[o]);
      }
      assert OwnsWith(s'.threads[u].held, o, s'.mark[o]);
    }
  }

  /** An unlock of the outermost lock always finds its own record in the mark, so the fast path
      never fails on unlock. */
  lemma UnlockSucceeds(c: Config, s: Sys, t: int)
    requires Inv(c, s) && t in s.threads && s.threads[t].pc.CasBack?
    ensures MarkOf(s, s.threads[t].pc.obj) == s.threads[t].pc.rec
  {
    hide MarkInv, InStack, Outer, OwnsWith;
    var th := s.threads[t];
    assert ThreadInv(c, s, t, th);
    assert th.held[|th.held| - 1] == Held(th.pc.obj, th.pc.rec);
  }

  lemma CasBackStep(c: Config, s: Sys, t: int)
    requires Inv(c, s) && Enabled(c, s, Advance(t)) && s.threads[t].pc.CasBack?
    ensures Inv(c, Next(c, s, Advance(t)))
  {
    var s', th := Next(c, s, Advance(t)), s.threads[t];
    UnlockSucceeds(c, s, t);
    assert ThreadInv(c, s, t, th);
    HeldPop(c, s, t, th.held);
    ReleasedOuter(c, s, s', t, th.held);
    forall o | o in s.mark
      ensures MarkInv(c, s', o)
    {
      CasBackMarks(c, s, s', t, o);
    }
    CasBackFrame(c, s, s', t);
    Assemble(c, s, s', t);
  }

  lemma ReleasedOuter(c: Config, s: Sys, s': Sys, t: int, held: seq<Held>)
    requires HeldInv(c, s, t, held) && held != [] && Outer(held, |held| - 1)
    requires HeldInv(c, s, t, held[..|held| - 1])
    requires s'.disp == s.disp && s'.recObj == s.recObj && s'.mark.Keys == s.mark.Keys
    requires forall o :: o in s.mark && o in s'.mark && o != Last(held).obj ==> s'.mark[o] == s.mark[o]
    ensures HeldInv(c, s', t, held[..|held| - 1])
  {
    var held' := held[..|held| - 1];
    forall i | 0 <= i < |held'|
      ensures held'[i].obj != Last(held).obj
    {
      assert held[i].obj != held[|held| - 1].obj;
    }
  }

  lemma CasBackMarks(c: Config, s: Sys, s': Sys, t: int, o: int)
    requires Inv(c, s) && t in s.threads && s.threads[t].pc.CasBack? && o in s.mark
    requires var pc := s.threads[t].pc; s' == SetThread(s.(mark := s.mark[pc.obj := pc.hdr]), t, Released(s.threads[t]))
    ensures MarkInv(c, s', o)
  {
    hide WfConfig, HeldInv, OwnsWith, Outer, InStack;
    assert ThreadInv(c, s, t, s.threads[t]);
    if o != s.threads[t].pc.obj && s.mark[o] != c.header[o] {
      var u := MarkedBy(c, s, o);
      if u == t {
        OwnsPop(s.threads[t].held, o, s.mark[o]);
      }
      assert OwnsWith(s'.threads[u].held, o, s'.mark[o]);
    }
  }

  lemma CasBackFrame(c: Config, s: Sys, s': Sys, t: int)
    requires Inv(c, s) && t in s.threads && s.threads[t].pc.CasBack?
    requires var pc := s.threads[t].pc; s' == SetThread(s.(mark := s.mark[pc.obj := pc.hdr]), t, Released(s.threads[t]))
    ensures Frame(c, s, s', t)
  {
    var pc, held := s.threads[t].pc, s.threads[t].held;
    assert ThreadInv(c, s, t, s.threads[t]);
    assert InStack(c, t, held[|held| - 1].rec);
    forall u, o, rec | u in s.threads && u != t && OwnsWith(s.threads[u].held, o, rec) && o in s.mark
      ensures s'.mark[o] == s.mark[o]
    {
      var i :| 0 <= i < |s.threads[u].held| && s.threads[u].held[i] == Held(o, rec) && Outer(s.threads[u].held, i);
      HolderIsMarked(c, s, u, i);
      ApartStacks(c, t, u, held[|held| - 1].rec, s.mark[o]);
    }
  }

  /** Every atomic step of every thread keeps the invariant. */
  lemma StepInv(c: Config, s: Sys, step: Step)
    requires Inv(c, s) && Enabled(c, s, step)
    ensures Inv(c, Next(c, s, step))
  {
    if !step.Advance? {
      BeginStep(c, s, step);
    } else {
      var t := step.t;
      match s.threads[t].pc
      case LoadMark(_, _, _) => LoadMarkStep(c, s, t);
      case StoreDisplaced(_, _, _, _) => StoreDisplacedStep(c, s, t);
      case CasMark(obj, _, _, hdr) =>
        if MarkOf(s, obj) == hdr {
          CasStep(c, s, t);
        } else {
          FailedCasStep(c, s, t);
        }
      case TestRecursion(_, _, _, _) => TestStep(c, s, t);
      case LoadDisplaced(_) => LoadDisplacedStep(c, s, t);
      case LoadObject(_, _) => LoadObjectStep(c, s, t);
      case CasBack(_, _, _) => CasBackStep(c, s, t);
    }
  }

  // ----- every run -----

  lemma InitInv(c: Config, s: Sys)
    requires WfConfig(c) && Init(c, s)
    ensures Inv(c, s)
  {
    hide WfConfig, OwnsWith, InStack;
    forall t | t in s.threads ensures ThreadInv(c, s, t, s.threads[t]) {
      assert s.threads[t] == Thread(Idle, []);
    }
  }

  /** A run of any length from the initial state, in any interleaving. */
  ghost predicate IsRun(c: Config, run: seq<Sys>, steps: seq<Step>) {
    && |run| == |steps| + 1 && Init(c, run[0]) && Follows(c, run, steps)
  }

  ghost predicate Follows(c: Config, run: seq<Sys>, steps: seq<Step>)
    requires |run| == |steps| + 1
  {
    forall i :: 0 <= i < |steps| ==> Enabled(c, run[i], steps[i]) && run[i + 1] == Next(c, run[i], steps[i])
  }

  lemma {:induction false} RunInv(c: Config, run: seq<Sys>, steps: seq<Step>, n: nat)
    requires WfConfig(c) && IsRun(c, run, steps) && n < |run|
    ensures Inv(c, run[n])
    decreases n
  {
    if n == 0 {
      InitInv(c, run[0]);
    } else {
      RunInv(c, run, steps, n - 1);
      StepInv(c, run[n - 1], steps[n - 1]);
      assert run[(n - 1) + 1] == Next(c, run[n - 1], steps[n - 1]);
    }
  }

  ghost predicate HoldsLock(s: Sys, t: int, o: int) {
    t in s.threads && exists i :: 0 <= i < |s.threads[t].held| && s.threads[t].held[i].obj == o
  }

  /** In every state of every run at most one thread holds an object. */
  lemma MutualExclusion(c: Config, run: seq<Sys>, steps: seq<Step>, n: nat, t: int, u: int, o: int)
    requires WfConfig(c) && IsRun(c, run, steps) && n < |run|
    requires HoldsLock(run[n], t, o) && HoldsLock(run[n], u, o)
    ensures t == u
  {
    var s := run[n];
    RunInv(c, run, steps, n);
    var i :| 0 <= i < |s.threads[t].held| && s.threads[t].held[i].obj == o;
    var j :| 0 <= j < |s.threads[u].held| && s.threads[u].held[j].obj == o;
    HolderIsMarked(c, s, t, i);
    HolderIsMarked(c, s, u, j);
    OneStack(c, t, u, s.mark[o]);
  }

  /** In every state of every run the mark of an object is its original header if no thread
      holds it, and otherwise the address of the holder's outermost lock record, which keeps
      that header. */
  lemma MarkMeaning(c: Config, run: seq<Sys>, steps: seq<Step>, n: nat, o: int)
    requires WfConfig(c) && IsRun(c, run, steps) && n < |run| && o in c.header
    ensures o in run[n].mark
    ensures (forall t :: !HoldsLock(run[n], t, o)) ==> run[n].mark[o] == c.header[o]
    ensures forall t :: HoldsLock(run[n], t, o) ==>
              && OwnsWith(run[n].threads[t].held, o, run[n].mark[o])
              && Read(run[n].disp, run[n].mark[o]) == c.header[o]
              && ReadObj(run[n].recObj, run[n].mark[o]) == o
  {
    var s := run[n];
    RunInv(c, run, steps, n);
    if s.mark[o] != c.header[o] {
      var u := MarkedBy(c, s, o);
      assert HoldsLock(s, u, o);
    }
    forall t | HoldsLock(s, t, o)
      ensures OwnsWith(s.threads[t].held, o, s.mark[o])
      ensures Read(s.disp, s.mark[o]) == c.header[o] && ReadObj(s.recObj, s.mark[o]) == o
    {
      var i :| 0 <= i < |s.threads[t].held| && s.threads[t].held[i].obj == o;
      HolderIsMarked(c, s, t, i);
      assert ThreadInv(c, s, t, s.threads[t]);
    }
  }

  /** An unlock never leaves the fast path. */
  lemma UnlockStaysFast(c: Config, run: seq<Sys>, steps: seq<Step>, n: nat, t: int)
    requires WfConfig(c) && IsRun(c, run, steps) && n < |steps| && steps[n] == Advance(t)
    requires var pc := run[n].threads[t].pc; pc.LoadDisplaced? || pc.LoadObject? || pc.CasBack?
    ensures !run[n + 1].threads[t].pc.Slow?
  {
    RunInv(c, run, steps, n);
    if run[n].threads[t].pc.CasBack? {
      UnlockSucceeds(c, run[n], t);
    }
  }

  /** A thread that already holds the object locks it again exactly when its outermost record
      is within a page above the stack pointer; otherwise it leaves the fast path. */
  lemma RelockExact(c: Config, run: seq<Sys>, steps: seq<Step>, n: nat, t: int)
    requires WfConfig(c) && IsRun(c, run, steps) && n < |steps| && steps[n] == Advance(t)
    requires run[n].threads[t].pc.TestRecursion?
    ensures var pc := run[n].threads[t].pc;
            run[n + 1].threads[t].pc.Idle? <==>
            HoldsLock(run[n], t, pc.obj) && pc.hdr == MarkOf(run[n], pc.obj) && pc.rsp <= pc.hdr < pc.rsp + Page(c)
  {
    var s := run[n];
    var pc := s.threads[t].pc;
    RunInv(c, run, steps, n);
    assert ThreadInv(c, s, t, s.threads[t]);
    RecursionTestExact(c, pc.hdr, pc.rsp);
    if RecursionTest(c, pc.hdr, pc.rsp) == 0 {
      RecursionIsOwned(c, s, t);
      var i :| 0 <= i < |s.threads[t].held| && s.threads[t].held[i] == Held(pc.obj, pc.hdr)
               && Outer(s.threads[t].held, i);
      assert HoldsLock(s, t, pc.obj);
    } else if HoldsLock(s, t, pc.obj) && pc.hdr == s.mark[pc.obj] {
      var i :| 0 <= i < |s.threads[t].held| && s.threads[t].held[i].obj == pc.obj;
      HolderIsMarked(c, s, t, i);
    }
  }
}

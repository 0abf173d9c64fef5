/** The scheduler of src/x86-64/examples/TP3.c as a program over its globals and over the memory of its
    structures. Every method is proved to have the effect that Preemption gives to it. Choose, SwitchToCtx,
    CreateCtx, Down, Terminate and SemUp run with the interrupts masked, or are single assignments; ticks may
    come between them. Yield, Finish and SemDown are what they make up when none does. */
module Scheduler {
  import opened Collections
  import opened SchedulerSpec
  import opened SchedulerInvariant
  import opened SchedulerTheorems
  import opened Preemption
  import opened PreemptionTheorems
  import opened SchedulerMemory

  datatype Result = Returned | Exited | Crashed

  /** The globals, and the memory of the structures as one map per field. `live` is what the allocator knows:
      free() takes an address out of it and leaves the fields of the block as they are. An address is never
      handed out twice. */
  datatype Memory<!C, !S> = Memory(ctxRing: Option<C>, currentCtx: Option<C>, etat: map<C, Etat>, next: map<C, C>,
                                   nextBlocked: map<C, Option<C>>, live: set<C>, val: map<S, int>,
                                   firstBlocked: map<S, Option<C>>)

  predicate Rep<C(==), S(==)>(m: Memory<C, S>, s: Sched<C, S>)
    requires WellFormed(s)
  {
    && m.ctxRing == s.head && m.currentCtx == (if s.running then Some(s.ring[0]) else None)
    && Cycle(s.ring, m.next) && m.etat == s.etat && m.live == s.etat.Keys - s.freed
    && SemsRep(m.val, m.firstBlocked, m.nextBlocked, s.sems)
  }

  predicate Good<C(==), S(==)>(m: Memory<C, S>, k: Kernel<C, S>) {
    KernelInv(k) && WellFormed(k.s) && Rep(m, k.s)
  }

  // ---- What each operation does to the memory ---------------------------------------------------

  lemma CallGood<C, S>(k: Kernel<C, S>, ev: Event<C, S>) returns (u: Kernel<C, S>)
    requires KernelInv(k) && WellFormed(k.s) && Permitted(k, Call(ev)) && CallStep(k, ev).Go? && !StaleCall(k.s, ev)
    ensures CallStep(k, ev) == Go(u) && Step(k.s, ev) == Go(u.s) && KernelInv(u) && WellFormed(u.s)
  {
    CallKeeps(k, ev);
    u := CallStep(k, ev).s;
    InvFormed(u.s);
    hide Inv, WindowsInv;
  }

  function Created<C, S>(m: Memory<C, S>, c: C): Memory<C, S>
    requires m.ctxRing.Some? ==> m.ctxRing.value in m.next
  {
    m.(next := match m.ctxRing
               case None => m.next[c := c]
               case Some(h) => m.next[c := m.next[h]][h := c],
       ctxRing := if m.ctxRing.None? then Some(c) else m.ctxRing,
       live := m.live + {c}, etat := m.etat[c := READY], nextBlocked := m.nextBlocked[c := None])
  }

  lemma CreatedRep<C, S>(m: Memory<C, S>, s: Sched<C, S>, c: C)
    requires Inv(s) && WellFormed(s) && Rep(m, s) && Callable(s, Create(c))
    ensures m.ctxRing.Some? ==> m.ctxRing.value in m.next
    ensures WellFormed(CreateCtx(s, c)) && Rep(Created(m, c), CreateCtx(s, c))
  {
    hide Inv, WellFormed, Cycle, SemsRep, CreateCtx, Callable;
    var t := CreatePlan(m.val, m.firstBlocked, m.nextBlocked, s, c, m.next);
  }

  lemma CreatePlanned<C, S>(m: Memory<C, S>, k: Kernel<C, S>, c: C) returns (u: Kernel<C, S>)
    requires Good(m, k) && Permitted(k, Call(Create(c)))
    ensures m.ctxRing.Some? ==> m.ctxRing.value in m.next && m.ctxRing.value != c
    ensures CallStep(k, Create(c)) == Go(u) && Good(Created(m, c), u)
  {
    assert Inv(k.s) && Rep(m, k.s) && Callable(k.s, Create(c));
    u := CallGood(k, Create(c));
    assert u.s == CreateCtx(k.s, c) && (m.ctxRing.Some? ==> m.ctxRing.value != c);
    hide Inv, KernelInv, Rep, Created, CreateCtx, CallStep, Callable, WellFormed, Permitted;
    CreatedRep(m, k.s, c);
  }

  lemma InitRepeated<C, S>(m: Memory<C, S>, k: Kernel<C, S>, sem: S, v: nat) returns (u: Kernel<C, S>)
    requires Good(m, k) && v < 0x1_0000_0000
    ensures u == k.(s := InitSem(k.s, sem, v)) && WellFormed(u.s)
    ensures Rep(m.(val := m.val[sem := AsInt32(v)], firstBlocked := m.firstBlocked[sem := None]), u.s)
    ensures KernelInv(u) <==> v < 0x8000_0000 && (sem in k.s.sems ==> k.s.sems[sem].blocked == [])
  {
    u := k.(s := InitSem(k.s, sem, v));
    assert WindowsInv(u);
    hide Inv, SemsRep, Cycle, WindowsInv;
    var t := InitPlan(m.val, m.firstBlocked, m.nextBlocked, k.s, sem, v);
  }

  lemma SwitchedRep<C, S>(m: Memory<C, S>, s: Sched<C, S>, c: C)
    requires Inv(s) && WellFormed(s) && Rep(m, s) && c in s.etat && (!s.running ==> m.ctxRing == Some(c))
    ensures c in m.etat && (c !in m.live <==> Switched(s, c) == Crash)
    ensures c in m.live ==>
              && Switched(s, c).Go? && Inv(Switched(s, c).s) && WellFormed(Switched(s, c).s)
              && Switched(s, c).s.running && Switched(s, c).s.ring[0] == c
              && (forall x :: x in s.etat ==> x in Switched(s, c).s.etat)
              && Rep(Entered(m, c), Switched(s, c).s)
  {
    hide Inv, WellFormed, Cycle, SemsRep, Switched;
    SwitchPlan(s, c, m.next);
  }

  function Counted<C, S>(m: Memory<C, S>, sem: S, step: int): Memory<C, S>
    requires sem in m.val
  {
    m.(val := m.val[sem := m.val[sem] + step])
  }

  lemma UppedRep<C, S>(m: Memory<C, S>, s: Sched<C, S>, sem: S)
    requires Inv(s) && WellFormed(s) && Rep(m, s) && Callable(s, Up(sem))
    ensures sem in m.val && sem in m.firstBlocked
    ensures SchedulerSpec.SemUp(s, sem).Crash? <==> m.val[sem] < 0 && m.firstBlocked[sem].None?
    ensures SchedulerSpec.SemUp(s, sem).Go? && m.val[sem] >= 0 ==>
              && WellFormed(SchedulerSpec.SemUp(s, sem).s)
              && Rep(Counted(m, sem, 1), SchedulerSpec.SemUp(s, sem).s)
    ensures SchedulerSpec.SemUp(s, sem).Go? && m.val[sem] < 0 ==>
              && WellFormed(SchedulerSpec.SemUp(s, sem).s) && m.firstBlocked[sem].value in m.nextBlocked
              && Rep(Popped(m, sem, m.firstBlocked[sem].value), SchedulerSpec.SemUp(s, sem).s)
  {
    hide Inv, WellFormed, Cycle, SemsRep, SchedulerSpec.SemUp, Callable;
    var t := UpPlan(m.val, m.firstBlocked, m.nextBlocked, s, sem);
  }

  lemma DownedRep<C, S>(m: Memory<C, S>, s: Sched<C, S>, sem: S)
    requires Inv(s) && WellFormed(s) && Rep(m, s) && Callable(s, Down(sem)) && !StaleCall(s, Down(sem))
    ensures sem in m.val && sem in m.firstBlocked && m.val[sem] == s.sems[sem].val
    ensures SchedulerSpec.SemDown(s, sem).Crash? <==> m.val[sem] < 1 && m.currentCtx.None?
    ensures m.val[sem] >= 1 ==>
              && SchedulerSpec.SemDown(s, sem).Go? && WellFormed(SchedulerSpec.SemDown(s, sem).s)
              && Rep(Counted(m, sem, -1), SchedulerSpec.SemDown(s, sem).s)
    ensures m.val[sem] < 1 && m.currentCtx.Some? ==>
              && SchedulerSpec.SemDown(s, sem).Go? && WellFormed(SchedulerSpec.SemDown(s, sem).s)
              && Rep(Pushed(m, sem, m.currentCtx.value), SchedulerSpec.SemDown(s, sem).s)
  {
    assert !SchedulerSpec.SemDown(s, sem).Exit?;
    var t := DownPlan(m.val, m.firstBlocked, m.nextBlocked, s, sem);
    assert s.running <==> m.currentCtx.Some?;
    hide Inv, WellFormed, Rep, SchedulerSpec.SemDown, Callable, StaleCall;
    if m.val[sem] >= 1 {
      SameRing(m, s, Counted(m, sem, -1), t);
    } else if s.running {
      assert m.currentCtx.value == s.ring[0] by { CurrentIs(m, s); }
      SameRing(m, s, Pushed(m, sem, s.ring[0]), t);
    }
  }

  lemma CurrentIs<C, S>(m: Memory<C, S>, s: Sched<C, S>)
    requires WellFormed(s) && Rep(m, s) && s.running
    ensures m.currentCtx == Some(s.ring[0])
  {
  }

  /** The ring, current_ctx and ctx_ring are left alone. */
  lemma SameRing<C, S>(m: Memory<C, S>, s: Sched<C, S>, m': Memory<C, S>, t: Sched<C, S>)
    requires WellFormed(s) && WellFormed(t) && Rep(m, s)
    requires t.ring == s.ring && t.head == s.head && t.running == s.running && t.freed == s.freed
    requires m'.ctxRing == m.ctxRing && m'.currentCtx == m.currentCtx && m'.next == m.next && m'.live == m.live
    requires m'.etat == t.etat && t.etat.Keys == s.etat.Keys && SemsRep(m'.val, m'.firstBlocked, m'.nextBlocked, t.sems)
    ensures Rep(m', t)
  {
    hide WellFormed, Cycle, SemsRep;
  }

  function Pushed<C, S>(m: Memory<C, S>, sem: S, c: C): Memory<C, S>
    requires sem in m.val && sem in m.firstBlocked
  {
    m.(etat := m.etat[c := WAITING], nextBlocked := m.nextBlocked[c := m.firstBlocked[sem]],
       firstBlocked := m.firstBlocked[sem := Some(c)], val := m.val[sem := m.val[sem] - 1])
  }

  lemma FinishedRep<C, S>(m: Memory<C, S>, s: Sched<C, S>)
    requires Inv(s) && WellFormed(s) && Rep(m, s) && Callable(s, Event.Finish)
    ensures m.currentCtx.Some? && WellFormed(FinishCtx(s))
    ensures Rep(m.(etat := m.etat[m.currentCtx.value := TERMINATED]), FinishCtx(s))
  {
    hide Inv, WellFormed, Cycle, SemsRep, Callable;
    var t := FinishPlan(s);
  }

  lemma UpKind<C, S>(m: Memory<C, S>, k: Kernel<C, S>, sem: S)
    requires Good(m, k) && Permitted(k, Call(Up(sem)))
    ensures Inv(k.s) && Rep(m, k.s) && sem in m.val && sem in m.firstBlocked && Callable(k.s, Up(sem))
    ensures CallStep(k, Up(sem)) == Crash <==> m.val[sem] < 0 && m.firstBlocked[sem].None?
    ensures CallStep(k, Up(sem)).Go? <==> SchedulerSpec.SemUp(k.s, sem).Go?
    ensures CallStep(k, Up(sem)).Go? <==> !(m.val[sem] < 0 && m.firstBlocked[sem].None?)
  {
    UppedRep(m, k.s, sem);
    hide Inv, KernelInv, Rep;
  }

  lemma UpFails<C, S>(m: Memory<C, S>, k: Kernel<C, S>, sem: S)
    requires Good(m, k) && Permitted(k, Call(Up(sem)))
    ensures sem in m.val && sem in m.firstBlocked
    ensures m.val[sem] < 0 && m.firstBlocked[sem].None? ==> CallStep(k, Up(sem)) == Crash
  {
    UpKind(m, k, sem);
    hide *;
  }

  lemma UpGives<C, S>(m: Memory<C, S>, k: Kernel<C, S>, sem: S) returns (u: Kernel<C, S>)
    requires Good(m, k) && Permitted(k, Call(Up(sem))) && sem in m.val && m.val[sem] >= 0
    ensures CallStep(k, Up(sem)) == Go(u) && Good(Counted(m, sem, 1), u)
  {
    UpKind(m, k, sem);
    u := CallGood(k, Up(sem));
    hide Inv, KernelInv, Rep, CallStep, Callable, WellFormed, Permitted, StaleCall;
    UppedRep(m, k.s, sem);
  }

  function Popped<C, S>(m: Memory<C, S>, sem: S, c: C): Memory<C, S>
    requires c in m.nextBlocked
  {
    m.(etat := m.etat[c := ACTIVABLE], firstBlocked := m.firstBlocked[sem := m.nextBlocked[c]])
  }

  lemma UpWakes<C, S>(m: Memory<C, S>, k: Kernel<C, S>, sem: S) returns (u: Kernel<C, S>)
    requires Good(m, k) && Permitted(k, Call(Up(sem))) && sem in m.val && sem in m.firstBlocked
    requires m.val[sem] < 0 && m.firstBlocked[sem].Some?
    ensures m.firstBlocked[sem].value in m.nextBlocked
    ensures CallStep(k, Up(sem)) == Go(u) && Good(Popped(m, sem, m.firstBlocked[sem].value), u)
  {
    UpKind(m, k, sem);
    u := CallGood(k, Up(sem));
    hide Inv, KernelInv, Rep, CallStep, Callable, WellFormed, Permitted, StaleCall;
    UppedRep(m, k.s, sem);
  }

  /** Which way sem_down goes. */
  lemma DownKind<C, S>(m: Memory<C, S>, k: Kernel<C, S>, sem: S)
    requires Good(m, k) && Permitted(k, Call(Down(sem)))
    ensures Callable(k.s, Down(sem)) && sem in m.val && sem in m.firstBlocked && m.val[sem] == k.s.sems[sem].val
    ensures m.currentCtx.None? <==> !k.s.running
    ensures CallStep(k, Down(sem)) == Crash <==> m.val[sem] < 1 && m.currentCtx.None?
    ensures CallStep(k, Down(sem)).Go? <==> !(m.val[sem] < 1 && m.currentCtx.None?)
  {
    assert SemRep(m.val[sem], m.firstBlocked[sem], m.nextBlocked, k.s.sems[sem]);
    hide Inv, KernelInv, ListRep, Cycle;
  }

  lemma DownFails<C, S>(m: Memory<C, S>, k: Kernel<C, S>, sem: S)
    requires Good(m, k) && Permitted(k, Call(Down(sem)))
    ensures sem in m.val && sem in m.firstBlocked && Callable(k.s, Down(sem)) && WellFormed(k.s)
    ensures m.val[sem] < 1 && m.currentCtx.None? ==> CallStep(k, Down(sem)) == Crash
    ensures StaleCall(k.s, Down(sem)) ==> m.val[sem] < 1 && m.currentCtx.Some?
  {
    DownKind(m, k, sem);
    hide Good, CallStep;
  }

  lemma DownTakes<C, S>(m: Memory<C, S>, k: Kernel<C, S>, sem: S) returns (u: Kernel<C, S>)
    requires Good(m, k) && Permitted(k, Call(Down(sem))) && sem in m.val && m.val[sem] >= 1
    ensures CallStep(k, Down(sem)) == Go(u) && Good(Counted(m, sem, -1), u)
  {
    DownKind(m, k, sem);
    assert Inv(k.s) && Rep(m, k.s) && !StaleCall(k.s, Down(sem));
    u := CallGood(k, Down(sem));
    assert SchedulerSpec.SemDown(k.s, sem) == Go(u.s);
    hide Inv, KernelInv, Rep, CallStep, Callable, WellFormed, Permitted, StaleCall, Step, SchedulerSpec.SemDown;
    DownedRep(m, k.s, sem);
  }

  lemma DownBlocks<C, S>(m: Memory<C, S>, k: Kernel<C, S>, sem: S) returns (u: Kernel<C, S>)
    requires Good(m, k) && Permitted(k, Call(Down(sem)))
    requires sem in m.val && sem in m.firstBlocked && m.val[sem] < 1 && m.currentCtx.Some?
    ensures WellFormed(k.s) && Callable(k.s, Down(sem)) && CallStep(k, Down(sem)) == Go(u)
    ensures !StaleCall(k.s, Down(sem)) ==> Good(Pushed(m, sem, m.currentCtx.value), u)
    ensures StaleCall(k.s, Down(sem)) ==> !Inv(u.s)
  {
    DownKind(m, k, sem);
    assert Inv(k.s) && Rep(m, k.s);
    u := CallStep(k, Down(sem)).s;
    if StaleCall(k.s, Down(sem)) {
      DoExact(k, Call(Down(sem)));
    } else {
      var w := CallGood(k, Down(sem));
      assert SchedulerSpec.SemDown(k.s, sem) == Go(u.s);
      hide Inv, KernelInv, Rep, CallStep, Callable, WellFormed, Permitted;
      hide StaleCall, Step, SchedulerSpec.SemDown, Pushed;
      DownedRep(m, k.s, sem);
    }
  }

  /** What stays true when a WAITING context returns: everything but the invariant. */
  lemma FinishPlanned<C, S>(m: Memory<C, S>, k: Kernel<C, S>) returns (u: Kernel<C, S>)
    requires Good(m, k) && Permitted(k, Call(Event.Finish))
    ensures m.currentCtx.Some? && CallStep(k, Event.Finish) == Go(u) && WellFormed(u.s)
    ensures Rep(m.(etat := m.etat[m.currentCtx.value := TERMINATED]), u.s)
    ensures KernelInv(u) <==> !StaleCall(k.s, Event.Finish)
  {
    assert Inv(k.s) && Rep(m, k.s) && Callable(k.s, Event.Finish);
    u := CallStep(k, Event.Finish).s;
    assert u.s == FinishCtx(k.s);
    DoExact(k, Call(Event.Finish));
    hide Inv, Rep, CallStep, Callable, WellFormed, Permitted, StaleCall, WindowsInv;
    FinishedRep(m, k.s);
  }

  lemma SwitchFails<C, S>(m: Memory<C, S>, k: Kernel<C, S>, c: C)
    requires Good(m, k) && c in k.s.etat && (!k.s.running ==> m.ctxRing == Some(c)) && c !in m.live
    ensures WellFormed(k.s) && Switched(k.s, c) == Crash
  {
    assert Inv(k.s) && Rep(m, k.s);
    hide Inv, Rep, KernelInv, Switched, WellFormed;
    SwitchedRep(m, k.s, c);
  }

  function Entered<C, S>(m: Memory<C, S>, c: C): Memory<C, S>
    requires c in m.etat
  {
    m.(currentCtx := Some(c), etat := if m.etat[c] == READY then m.etat[c := ACTIVABLE] else m.etat)
  }

  /** The state after switch_to_ctx, whatever calls of yield are pending. */
  lemma SwitchPlanned<C, S>(m: Memory<C, S>, k: Kernel<C, S>, c: C) returns (u: Kernel<C, S>)
    requires Good(m, k) && c in k.s.etat && (!k.s.running ==> m.ctxRing == Some(c)) && c in m.live
    ensures WellFormed(k.s) && c in m.etat && Switched(k.s, c) == Go(u.s) && u == k.(s := u.s)
    ensures Good(Entered(m, c), u)
  {
    assert Inv(k.s) && Rep(m, k.s) && WindowsInv(k);
    hide Inv, Rep, Switched, WellFormed, WindowsInv, Entered;
    SwitchedRep(m, k.s, c);
    u := k.(s := Switched(k.s, c).s);
    StillKnown(k, u.s);
  }

  lemma StillKnown<C, S>(k: Kernel<C, S>, t: Sched<C, S>)
    requires WindowsInv(k) && (forall c :: c in k.s.etat ==> c in t.etat) && t.running
    ensures WindowsInv(k.(s := t))
  {
  }

  // ---- What choosing does to the memory ---------------------------------------------------------

  /** The memory within the loop of yield: it changes ctx_ring, `next` and the allocator. */
  function Bypassing<C, S>(m: Memory<C, S>, ctxRing: Option<C>, next: map<C, C>, live: set<C>): Memory<C, S> {
    m.(ctxRing := ctxRing, next := next, live := live)
  }

  lemma LoopStart<C, S>(m: Memory<C, S>, k: Kernel<C, S>)
    requires Good(m, k) && m.currentCtx.Some?
    ensures KernelInv(k) && Inv(k.s) && WellFormed(k.s) && k.s.running && k.s.ring != []
    ensures m.currentCtx.value == k.s.ring[0]
    ensures m.etat == k.s.etat && k.s.ring[0] in m.next && m.next[k.s.ring[0]] in k.s.etat
    ensures Walking(k.s, 1, m.next[k.s.ring[0]], k.s.ring[0], m.ctxRing, m.next, m.live)
  {
    hide Inv, Cycle, Walking, SemsRep, WindowsInv;
    WalkStart(k.s, m.ctxRing, m.next, m.live);
  }

  lemma LoopEnds<C, S>(k: Kernel<C, S>, tick: bool)
    requires KernelInv(k) && WellFormed(k.s)
    ensures YieldCtx(k.s) == Exit ==> ChooseStep(k, tick) == Exit
    ensures YieldCtx(k.s) == Crash ==> ChooseStep(k, tick) == Crash
  {
    AtomicYield(k, tick);
    hide Inv, YieldCtx, ChooseStep, WindowsInv;
  }

  lemma LoopEndsFor<C, S>(m: Memory<C, S>, k: Kernel<C, S>, tick: bool)
    requires Good(m, k) && m.currentCtx.Some?
    ensures WellFormed(k.s) && k.s.running
    ensures YieldCtx(k.s) == Exit ==> ChooseStep(k, tick) == Exit
    ensures YieldCtx(k.s) == Crash ==> ChooseStep(k, tick) == Crash
  {
    LoopEnds(k, tick);
    hide Inv, WellFormed, YieldCtx, ChooseStep;
  }

  lemma ChosenRep<C, S>(m: Memory<C, S>, s: Sched<C, S>, i: nat, target: C, precedent: C, ctxRing: Option<C>,
                        next: map<C, C>, live: set<C>)
    requires Inv(s) && WellFormed(s) && s.running && Rep(m, s) && 1 <= i <= |s.ring| && target in s.etat
    requires Walking(s, i, target, precedent, ctxRing, next, live) && Runnable(s.etat[target])
    ensures Walk(s, 1) == Found(i) && At(s, i) == target
    ensures WellFormed(Chosen(s, i)) && Rep(Bypassing(m, ctxRing, next, live), Chosen(s, i))
  {
    hide Inv, Walking, Chosen, Cycle, SemsRep, Walk;
    var t := WalkDone(s, i, target, precedent, ctxRing, next, live);
    ChosenInv(s, i);
  }

  lemma ChoosePlanned<C, S>(m: Memory<C, S>, k: Kernel<C, S>, tick: bool, i: nat, target: C, precedent: C,
                            ctxRing: Option<C>, next: map<C, C>, live: set<C>) returns (u: Kernel<C, S>)
    requires Good(m, k) && k.s.running && 1 <= i <= |k.s.ring| && target in k.s.etat
    requires Walking(k.s, i, target, precedent, ctxRing, next, live) && Runnable(k.s.etat[target])
    ensures ChooseStep(k, tick) == Go(u) && Good(Bypassing(m, ctxRing, next, live), u)
    ensures WellFormed(u.s) && InWindow(u) && Target(u) == target
  {
    assert Inv(k.s) && Rep(m, k.s) && KernelInv(k);
    ChosenRep(m, k.s, i, target, precedent, ctxRing, next, live);
    u := k.(s := Chosen(k.s, i), windows := k.windows + [(k.s.ring[0], target)], 
             due := if tick then k.due else k.due - {k.s.ring[0]});
    assert ChooseStep(k, tick) == Go(u);
    hide Inv, Walking, Chosen, Rep, Walk, Bypassing, WellFormed, KernelInv;
    ChooseKeeps(k, tick);
    ChosenInv(k.s, i);
    OpenAppend(k.windows, (k.s.ring[0], target));
  }

  /** The first yield. */
  lemma FirstChoice<C, S>(m: Memory<C, S>, k: Kernel<C, S>, tick: bool)
    requires Good(m, k) && m.currentCtx.None?
    ensures WellFormed(k.s) && !k.s.running && KernelInv(k)
    ensures m.ctxRing.None? ==> ChooseStep(k, tick) == Crash
    ensures m.ctxRing.Some? ==>
              && m.ctxRing.value in k.s.etat && m.ctxRing.value in m.live
              && ChooseStep(k, tick).Go? && Switched(k.s, m.ctxRing.value) == Go(ChooseStep(k, tick).s.s)
              && ChooseStep(k, tick).s == k.(s := ChooseStep(k, tick).s.s)
  {
    FirstYield(k.s);
    if m.ctxRing.Some? {
      FirstSwitch(k.s, m.ctxRing.value);
    }
    hide Inv, Cycle, SemsRep, WindowsInv;
  }

  lemma LostActs<C, S>(m: Memory<C, S>, k: Kernel<C, S>)
    requires Good(m, k) && WellFormed(k.s) && InWindow(k) && Target(k) !in m.live
    ensures SwitchStep(k) == Crash
  {
    TargetKnown(k);
    SwitchExact(k);
    hide Inv, SwitchCtx, WindowsInv, SwitchStep, Cycle, SemsRep;
  }

  /** The window is closed, and the target goes on. */
  lemma SwitchActs<C, S>(m: Memory<C, S>, k: Kernel<C, S>) returns (u: Kernel<C, S>)
    requires Good(m, k) && WellFormed(k.s) && InWindow(k) && Target(k) in m.live
    ensures Target(k) in m.etat && SwitchStep(k) == Go(u) && Good(Entered(m, Target(k)), u)
  {
    var c := Target(k);
    TargetKnown(k);
    SwitchExact(k);
    assert Inv(k.s) && Rep(m, k.s) && k.s.running && c !in k.s.freed;
    hide Inv, KernelInv, Rep, WellFormed, SwitchCtx, Entered;
    SwitchedRep(m, k.s, c);
    u := SwitchStep(k).s;
    assert Switched(k.s, c) == Go(u.s);
  }

  lemma YieldWhole<C, S>(m: Memory<C, S>, k: Kernel<C, S>, tick: bool)
    requires Good(m, k)
    ensures WellFormed(k.s) && (m.currentCtx.None? <==> !k.s.running)
    ensures ChooseStep(k, tick) == Exit ==> YieldCtx(k.s) == Exit
    ensures ChooseStep(k, tick) == Crash ==> YieldCtx(k.s) == Crash
    ensures ChooseStep(k, tick).Go? && !k.s.running ==> YieldCtx(k.s) == Go(ChooseStep(k, tick).s.s)
    ensures ChooseStep(k, tick).Go? && k.s.running ==>
              var w := ChooseStep(k, tick).s;
              WellFormed(w.s) && InWindow(w) && SwitchStep(w).Go? && YieldCtx(k.s) == Go(SwitchStep(w).s.s)
  {
    AtomicYield(k, tick);
    hide Inv, YieldCtx, ChooseStep, SwitchStep, Cycle, SemsRep, WindowsInv, WellFormed;
  }

  // ---- The scheduler ----------------------------------------------------------------------------

  class Scheduler<C(==), S(==)> {
    var ctxRing: Option<C>
    var currentCtx: Option<C>
    var etat: map<C, Etat>
    var next: map<C, C>
    var nextBlocked: map<C, Option<C>>
    var live: set<C>
    var val: map<S, int>
    var firstBlocked: map<S, Option<C>>

    /** The state that all this stands for, with the calls of yield that the stacks of the contexts hold. */
    ghost var k: Kernel<C, S>

    function Mem(): Memory<C, S>
      reads this
    {
      Memory(ctxRing, currentCtx, etat, next, nextBlocked, live, val, firstBlocked)
    }

    ghost predicate Valid()
      reads this
    {
      Good(Mem(), k)
    }

    constructor ()
      ensures Valid() && k == Preemption.Boot(map[])
    {
      ctxRing, currentCtx := None, None;
      etat, next, nextBlocked, live, val, firstBlocked := map[], map[], map[], {}, map[], map[];
      k := Preemption.Boot(map[]);
    }

    method SemInit(sem: S, v: nat)
      requires Valid() && v < 0x1_0000_0000
      modifies this`val, this`firstBlocked, this`k
      ensures k == old(k).(s := InitSem(old(k).s, sem, v)) && WellFormed(k.s) && Rep(Mem(), k.s)
      ensures Valid() <==> v < 0x8000_0000 && (sem in old(k).s.sems ==> old(k).s.sems[sem].blocked == [])
    {
      ghost var u := InitRepeated(Mem(), k, sem, v);
      hide KernelInv, Rep, InitSem, WellFormed;
      val := val[sem := AsInt32(v)];
      firstBlocked := firstBlocked[sem := None];
      k := u;
    }

    /** malloc has returned the address `ctx`. */
    method CreateCtx(ctx: C)
      requires Valid() && Permitted(k, Call(Create(ctx)))
      modifies this
      ensures Valid() && Go(k) == CallStep(old(k), Create(ctx))
    {
      ghost var u := CreatePlanned(Mem(), k, ctx);
      hide Good, CallStep, Permitted;
      Insert(ctx);
      Ready(ctx, u);
    }

    /** Lines 76 to 82. */
    method Ready(ctx: C, ghost u: Kernel<C, S>)
      modifies this`live, this`etat, this`nextBlocked, this`k
      ensures live == old(live) + {ctx} && etat == old(etat)[ctx := READY]
      ensures nextBlocked == old(nextBlocked)[ctx := None] && k == u
    {
      live := live + {ctx};
      etat := etat[ctx := READY];
      nextBlocked := nextBlocked[ctx := None];
      k := u;
    }

    /** Lines 65 to 73. */
    method Insert(ctx: C)
      requires ctxRing.Some? ==> ctxRing.value in next && ctxRing.value != ctx
      modifies this`ctxRing, this`next
      ensures ctxRing == if old(ctxRing) == None then Some(ctx) else old(ctxRing)
      ensures next == if old(ctxRing) == None then old(next)[ctx := ctx]
                      else old(next)[ctx := old(next)[old(ctxRing).value]][old(ctxRing).value := ctx]
    {
      if ctxRing == None {
        next := next[ctx := ctx];
        ctxRing := Some(ctx);
      } else {
        next := next[ctx := next[ctxRing.value]];
        next := next[ctxRing.value := ctx];
      }
    }

    /** Lines 135 to 147. */
    method Resume(ctx: C, ghost u: Kernel<C, S>)
      requires ctx in etat && Good(Entered(Mem(), ctx), u)
      modifies this`currentCtx, this`etat, this`k
      ensures Valid() && k == u
    {
      hide Good;
      currentCtx := Some(ctx);
      if etat[ctx] == READY {
        etat := etat[ctx := ACTIVABLE];            // and the entry point is called
      }
      k := u;
    }

    /** switch_to_ctx, to any context that has been created. A freed one has no stack. */
    method SwitchToCtx(ctx: C) returns (r: Result)
      requires Valid() && ctx in k.s.etat && (!k.s.running ==> ctxRing == Some(ctx))
      modifies this
      ensures WellFormed(old(k).s) && (r == Crashed || r == Returned)
      ensures r == Crashed ==> Switched(old(k).s, ctx) == Crash
      ensures r == Returned ==> Valid() && Switched(old(k).s, ctx) == Go(k.s) && k == old(k).(s := k.s)
    {
      hide Good, Switched, WellFormed, Entered;
      if ctx !in live {
        SwitchFails(Mem(), k, ctx);
        return Crashed;
      }
      ghost var u := SwitchPlanned(Mem(), k, ctx);
      Resume(ctx, u);
      return Returned;
    }

    /** The entry point of the running context has returned (line 150). A yield follows. */
    method Terminate()
      requires Valid() && Permitted(k, Call(Event.Finish))
      modifies this`etat, this`k
      ensures Go(k) == CallStep(old(k), Event.Finish) && WellFormed(k.s) && Rep(Mem(), k.s)
      ensures Valid() <==> !StaleCall(old(k).s, Event.Finish)
    {
      ghost var u := FinishPlanned(Mem(), k);
      hide Rep, KernelInv, CallStep, WellFormed, StaleCall;
      etat := etat[currentCtx.value := TERMINATED];
      k := u;
    }

    /** `val` goes up or down by one. */
    method Count(sem: S, step: int, ghost u: Kernel<C, S>)
      requires sem in val
      modifies this`val, this`k
      ensures Mem() == Counted(old(Mem()), sem, step) && k == u
    {
      val := val[sem := val[sem] + step];
      k := u;
    }

    /** Lines 205 to 208. */
    method Push(sem: S, ghost u: Kernel<C, S>)
      requires sem in val && sem in firstBlocked && currentCtx.Some?
      modifies this`etat, this`nextBlocked, this`firstBlocked, this`val, this`k
      ensures Mem() == Pushed(old(Mem()), sem, currentCtx.value) && k == u
    {
      k := u;
      etat := etat[currentCtx.value := WAITING];
      nextBlocked := nextBlocked[currentCtx.value := firstBlocked[sem]];
      firstBlocked := firstBlocked[sem := currentCtx];
      val := val[sem := val[sem] - 1];
    }

    /** sem_down up to line 209. When it blocks, a yield follows. A context that is on a list already pushes
        itself once more: the memory is then what the assignments make of it, and the invariant is lost. */
    method Down(sem: S) returns (r: Result, blocks: bool)
      requires Valid() && Permitted(k, Call(Event.Down(sem)))
      modifies this
      ensures r == Crashed || r == Returned
      ensures r == Crashed ==> CallStep(old(k), Event.Down(sem)) == Crash
      ensures sem in old(val) && sem in old(firstBlocked) && (r == Returned ==> (blocks <==> old(val)[sem] < 1))
      ensures r == Returned && !StaleCall(old(k).s, Event.Down(sem)) ==>
                Valid() && Go(k) == CallStep(old(k), Event.Down(sem))
      ensures StaleCall(old(k).s, Event.Down(sem)) ==>
                && r == Returned && old(currentCtx).Some? && Mem() == Pushed(old(Mem()), sem, old(currentCtx).value)
                && CallStep(old(k), Event.Down(sem)).Go? && !Inv(CallStep(old(k), Event.Down(sem)).s.s)
    {
      DownFails(Mem(), k, sem);
      hide Good, CallStep, Permitted, WellFormed, StaleCall, Inv, Pushed, Counted;
      if val[sem] >= 1 {
        ghost var u := DownTakes(Mem(), k, sem);
        Count(sem, -1, u);
        return Returned, false;
      }
      if currentCtx == None { return Crashed, false; }
      ghost var u := DownBlocks(Mem(), k, sem);
      Push(sem, u);
      return Returned, true;
    }

    /** Lines 221 and 222. */
    method Pop(sem: S, ghost u: Kernel<C, S>)
      requires sem in firstBlocked && firstBlocked[sem].Some? && firstBlocked[sem].value in nextBlocked
      modifies this`etat, this`firstBlocked, this`k
      ensures Mem() == Popped(old(Mem()), sem, old(firstBlocked)[sem].value) && k == u
    {
      k := u;
      var woken := firstBlocked[sem].value;
      etat := etat[woken := ACTIVABLE];
      firstBlocked := firstBlocked[sem := nextBlocked[woken]];
    }

    method SemUp(sem: S) returns (r: Result)
      requires Valid() && Permitted(k, Call(Up(sem)))
      modifies this
      ensures r == Crashed || r == Returned
      ensures r == Crashed ==> CallStep(old(k), Up(sem)) == Crash
      ensures r == Returned ==> Valid() && Go(k) == CallStep(old(k), Up(sem))
    {
      UpFails(Mem(), k, sem);
      hide Good, CallStep, Permitted, WellFormed, Popped, Counted;
      if val[sem] >= 0 {
        ghost var u := UpGives(Mem(), k, sem);
        Count(sem, 1, u);
      } else {
        if firstBlocked[sem] == None { return Crashed; }
        ghost var u := UpWakes(Mem(), k, sem);
        Pop(sem, u);
      }
      r := Returned;
    }

    /** Line 91: the first switch. */
    method Start(ghost tick: bool) returns (r: Result)
      requires Valid() && currentCtx == None
      modifies this
      ensures WellFormed(old(k).s) && !old(k).s.running && (r == Crashed || r == Returned)
      ensures r == Crashed ==> ChooseStep(old(k), tick) == Crash
      ensures r == Returned ==> Valid() && Go(k) == ChooseStep(old(k), tick)
    {
      FirstChoice(Mem(), k, tick);
      hide Good, Switched, ChooseStep, WellFormed, KernelInv;
      if ctxRing == None { return Crashed; }
      r := SwitchToCtx(ctxRing.value);
    }

    /** Lines 105 to 110. */
    method Bypass(target: C, precedent: C)
      requires target in next
      modifies this`ctxRing, this`next, this`live
      ensures ctxRing == if old(ctxRing) == Some(target) then Some(old(next)[target]) else old(ctxRing)
      ensures next == old(next)[precedent := old(next)[target]] && live == old(live) - {target}
    {
      if ctxRing == Some(target) {
        ctxRing := Some(next[target]);
      }
      next := next[precedent := next[target]];
      live := live - {target};
    }

    /** The body of the loop, from the context at position `i`: `t` is the next one. */
    method StepOver(target: C, precedent: C, ghost i: nat) returns (r: Result, t: C)
      requires Inv(k.s) && WellFormed(k.s) && k.s.running && 1 <= i <= |k.s.ring| && target in k.s.etat
      requires etat == k.s.etat && currentCtx == Some(k.s.ring[0]) && !Runnable(etat[target])
      requires Walking(k.s, i, target, precedent, ctxRing, next, live)
      modifies this`ctxRing, this`next, this`live
      ensures r == Exited ==> YieldCtx(k.s) == Exit
      ensures r == Crashed ==> YieldCtx(k.s) == Crash
      ensures r == Returned ==>
                i < |k.s.ring| && t in k.s.etat && Walking(k.s, i + 1, t, target, ctxRing, next, live)
    {
      hide Inv, WellFormed, Walking, YieldCtx;
      WalkTurn(k.s, i, target, precedent, ctxRing, next, live);
      if target == currentCtx.value {
        return Exited, target;
      }
      if etat[target] == TERMINATED {
        if target !in live {                       // free() of a block that is already free
          return Crashed, target;
        }
        Bypass(target, precedent);
      }
      t := next[target];
      Stays(k.s, i + 1, t, target, ctxRing, next, live);
      r := Returned;
    }

    /** The loop of yield, up to a context that can run. */
    method Seek(first: C) returns (r: Result, target: C, ghost i: nat, ghost last: C)
      requires Inv(k.s) && WellFormed(k.s) && k.s.running && k.s.ring != [] && first in k.s.etat
      requires etat == k.s.etat && currentCtx == Some(k.s.ring[0])
      requires Walking(k.s, 1, first, k.s.ring[0], ctxRing, next, live)
      modifies this`ctxRing, this`next, this`live
      ensures Mem() == Bypassing(old(Mem()), ctxRing, next, live)
      ensures r == Exited ==> YieldCtx(k.s) == Exit
      ensures r == Crashed ==> YieldCtx(k.s) == Crash
      ensures r == Returned ==>
                && 1 <= i <= |k.s.ring| && target in k.s.etat && Runnable(k.s.etat[target])
                && Walking(k.s, i, target, last, ctxRing, next, live)
    {
      hide Inv, WellFormed, Walking, YieldCtx;
      r, i, target := Returned, 1, first;
      var precedent := currentCtx.value;
      while r == Returned && (etat[target] == TERMINATED || etat[target] == WAITING)
        invariant 1 <= i <= |k.s.ring| && target in k.s.etat
        invariant r == Exited ==> YieldCtx(k.s) == Exit
        invariant r == Crashed ==> YieldCtx(k.s) == Crash
        invariant r == Returned ==> Walking(k.s, i, target, precedent, ctxRing, next, live)
        decreases |k.s.ring| - i, r == Returned
      {
        var t;
        r, t := StepOver(target, precedent, i);
        if r == Returned {
          precedent, target := target, t;
          i := i + 1;
        }
      }
      last := precedent;
    }

    /** Lines 95 to 115: the context to switch to, and what the kernel becomes. */
    method Find(ghost tick: bool) returns (r: Result, target: C, ghost u: Kernel<C, S>)
      requires Valid() && currentCtx != None
      modifies this`ctxRing, this`next, this`live
      ensures WellFormed(k.s)
      ensures r == Exited ==> YieldCtx(k.s) == Exit
      ensures r == Crashed ==> YieldCtx(k.s) == Crash
      ensures r == Returned ==>
                ChooseStep(k, tick) == Go(u) && Good(Mem(), u) && WellFormed(u.s) && InWindow(u) && Target(u) == target
    {
      ghost var m0 := Mem();
      LoopStart(m0, k);
      hide Good, KernelInv, Inv, WellFormed, Walking, YieldCtx, ChooseStep;
      hide Preemption.InWindow, Target, Runnable, Bypassing;
      ghost var i, precedent;
      r, target, i, precedent := Seek(next[currentCtx.value]);
      if r != Returned {
        u := k;
        return;
      }
      u := ChoosePlanned(m0, k, tick, i, target, precedent, ctxRing, next, live);
    }

    /** What the memory stands for now. */
    ghost method Enact(u: Kernel<C, S>)
      modifies this`k
      ensures k == u && Mem() == old(Mem())
    {
      k := u;
    }

    /** Lines 94 to 116: the context to switch to. A tick runs the same lines on the stack of the context. */
    method Choose(ghost tick: bool) returns (r: Result, target: Option<C>)
      requires Valid() && currentCtx != None
      modifies this
      ensures WellFormed(old(k).s) && old(k).s.running
      ensures r == Exited ==> ChooseStep(old(k), tick) == Exit
      ensures r == Crashed ==> ChooseStep(old(k), tick) == Crash
      ensures r == Returned ==> Valid() && Go(k) == ChooseStep(old(k), tick) && WellFormed(k.s)
      ensures r == Returned ==> InWindow(k) && target == Some(Target(k))
    {
      LoopEndsFor(Mem(), k, tick);
      hide Good, Inv, WellFormed, Walking, YieldCtx, ChooseStep, Preemption.InWindow, Target;
      var t: C;
      ghost var u;
      r, t, u := Find(tick);
      if r == Returned {
        Enact(u);
        return Returned, Some(t);
      }
      return r, None;
    }

    /** Lines 117 to 155, to the context chosen by the innermost pending yield of the running one. */
    method Switch(target: C) returns (r: Result)
      requires Valid() && WellFormed(k.s) && InWindow(k) && target == Target(k)
      modifies this
      ensures r == Crashed || r == Returned
      ensures r == Crashed ==> SwitchStep(old(k)) == Crash
      ensures r == Returned ==> Valid() && Go(k) == SwitchStep(old(k))
    {
      if target !in live {
        LostActs(Mem(), k);
        return Crashed;
      }
      ghost var u := SwitchActs(Mem(), k);
      hide Good, SwitchStep, Preemption.InWindow, Target, WellFormed, Entered;
      Resume(target, u);
      return Returned;
    }

    /** yield, when no tick falls inside it. */
    method Yield(ghost tick: bool) returns (r: Result)
      requires Valid()
      modifies this
      ensures WellFormed(old(k).s)
      ensures r == Exited ==> YieldCtx(old(k).s) == Exit
      ensures r == Crashed ==> YieldCtx(old(k).s) == Crash
      ensures r == Returned ==> Valid() && YieldCtx(old(k).s) == Go(k.s)
    {
      YieldWhole(Mem(), k, tick);
      hide Good, WellFormed, YieldCtx, ChooseStep, SwitchStep, Preemption.InWindow, Target;
      if currentCtx == None {
        r := Start(tick);
        return;
      }
      var target;
      r, target := Choose(tick);
      if r == Returned {
        r := Switch(target.value);
      }
    }

    /** The end of an entry point, when no tick falls inside the yield. */
    method Finish() returns (r: Result)
      requires Valid() && Permitted(k, Call(Event.Finish)) && !StaleCall(k.s, Event.Finish)
      modifies this
      ensures var s := CallStep(old(k), Event.Finish).s.s;
              && WellFormed(s) && (r == Exited ==> YieldCtx(s) == Exit) && (r == Crashed ==> YieldCtx(s) == Crash)
              && (r == Returned ==> Valid() && YieldCtx(s) == Go(k.s))
    {
      hide Good, Inv, WellFormed, YieldCtx, CallStep, StaleCall, KernelInv, Permitted;
      Terminate();
      r := Yield(false);
    }

    /** All of sem_down, when no tick falls inside its yield. */
    method SemDown(sem: S) returns (r: Result)
      requires Valid() && Permitted(k, Call(Event.Down(sem))) && !StaleCall(k.s, Event.Down(sem))
      modifies this
      ensures var o := CallStep(old(k), Event.Down(sem));
              if o.Crash? then r == Crashed
              else if old(k).s.sems[sem].val >= 1 then r == Returned && Valid() && Go(k) == o
              else o.Go? && WellFormed(o.s.s) && (r == Exited ==> YieldCtx(o.s.s) == Exit)
                   && (r == Crashed ==> YieldCtx(o.s.s) == Crash)
                   && (r == Returned ==> Valid() && YieldCtx(o.s.s) == Go(k.s))
    {
      DownKind(Mem(), k, sem);
      hide Good, Inv, WellFormed, YieldCtx, CallStep, StaleCall, Permitted, KernelInv;
      var blocks;
      r, blocks := Down(sem);
      if r == Returned && blocks {
        r := Yield(false);
      }
    }
  }
}

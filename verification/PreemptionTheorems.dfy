/** The scheduler with ticks anywhere: what holds of every run, and exactly which switches take the rest
    away. */
module PreemptionTheorems {
  import opened Collections
  import opened SchedulerSpec
  import opened SchedulerInvariant
  import opened SchedulerTheorems
  import opened Preemption

  // ---- Yield in two halves ----------------------------------------------------------------------

  /** Choosing changes the order of the ring as Unlink does, but for the place it is read from. */
  lemma ChosenRing<C, S>(s: Sched<C, S>, k: nat)
    requires WellFormed(s) && s.ring != [] && 1 <= k <= |s.ring|
    ensures var r := Chosen(s, k).ring;
            && Distinct(r) && r[0] == s.ring[0]
            && (forall c :: c in r <==> c in Unlink(s, k).ring)
            && At(s, k) in r && Turn(Chosen(s, k), At(s, k)) == Unlink(s, k)
  {
    UnlinkRing(s, k);
    var a := [s.ring[0]] + Relink(s.ring[1..k], s.etat);
    var b := s.ring[k..];
    assert Unlink(s, k).ring == b + a && Chosen(s, k).ring == a + b;
    assert At(s, k) == if b == [] then a[0] else b[0];
    hide Unlink, Relink, Chosen, WellFormed;
    RotatedAt(a, b);
    assert Chosen(s, k) == Unlink(s, k).(ring := a + b) by { ChosenIs(s, k); }
  }

  lemma ChosenIs<C, S>(s: Sched<C, S>, k: nat)
    requires WellFormed(s) && s.ring != [] && 1 <= k <= |s.ring|
    ensures Chosen(s, k) == Unlink(s, k).(ring := Chosen(s, k).ring)
  {
    hide Unlink, Relink;
  }

  /** `a + b` read from where `b` begins. */
  lemma RotatedAt<T>(a: seq<T>, b: seq<T>)
    requires a != [] && Distinct(b + a)
    ensures Distinct(a + b) && (forall x :: x in a + b <==> x in b + a)
    ensures var h := if b == [] then a[0] else b[0];
            h in a + b && (a + b)[IndexOf(a + b, h)..] + (a + b)[..IndexOf(a + b, h)] == b + a
  {
    Rotated(b, a);
    if b == [] {
      IndexUnique(a + b, 0);
    } else {
      assert (a + b)[|a|] == b[0];
      IndexUnique(a + b, |a|);
    }
  }

  lemma Rotated<T>(b: seq<T>, a: seq<T>)
    requires Distinct(b + a)
    ensures Distinct(a + b)
    ensures forall x :: x in a + b <==> x in b + a
    ensures (a + b)[|a|..] + (a + b)[..|a|] == b + a
  {
    DistinctParts(b + a, |b|);
    assert (b + a)[..|b|] == b && (b + a)[|b|..] == a;
    DistinctConcat(a, b);
  }

  lemma OpenAppend<C>(w: seq<(C, C)>, p: (C, C))
    ensures Open(w + [p], p.0) && Last(w + [p], p.0) == |w|
    ensures forall c :: Open(w, c) ==> Open(w + [p], c)
  {
    assert (w + [p])[..|w|] == w;
  }

  /** A yield without a tick inside is the step the other theorems take it for. */
  lemma AtomicYield<C, S>(k: Kernel<C, S>, tick: bool)
    requires Inv(k.s) && WellFormed(k.s)
    ensures ChooseStep(k, tick).Crash? <==> YieldCtx(k.s).Crash?
    ensures ChooseStep(k, tick).Exit? <==> YieldCtx(k.s).Exit?
    ensures ChooseStep(k, tick).Go? && !k.s.running ==> YieldCtx(k.s) == Go(ChooseStep(k, tick).s.s)
    ensures ChooseStep(k, tick).Go? && k.s.running ==>
              var w := ChooseStep(k, tick).s;
              && WellFormed(w.s) && InWindow(w) && SwitchStep(w).Go?
              && YieldCtx(k.s) == Go(SwitchStep(w).s.s) && SwitchStep(w).s.windows == k.windows
  {
    if ChooseStep(k, tick).Go? && k.s.running {
      var s := k.s;
      WalkPasses(s, 1);
      var p := Walk(s, 1).k;
      assert YieldCtx(s) == Go(Enter(Unlink(s, p)));
      var due := if tick then k.due else k.due - {s.ring[0]};
      assert ChooseStep(k, tick).s == k.(s := Chosen(s, p), windows := k.windows + [(s.ring[0], At(s, p))], due := due);
      hide YieldCtx, ChooseStep, Inv;
      ChosenSwitch(k, p, due);
    }
  }

  /** Switching at once. */
  lemma ChosenSwitch<C, S>(k: Kernel<C, S>, p: nat, due: set<C>)
    requires Inv(k.s) && WellFormed(k.s) && k.s.running && 1 <= p <= |k.s.ring| && Walk(k.s, 1) == Found(p)
    ensures var w := k.(s := Chosen(k.s, p), windows := k.windows + [(k.s.ring[0], At(k.s, p))], due := due);
            && WellFormed(w.s) && InWindow(w) && SwitchStep(w).Go?
            && SwitchStep(w).s.s == Enter(Unlink(k.s, p)) && SwitchStep(w).s.windows == k.windows
  {
    var s := k.s;
    var w := k.(s := Chosen(s, p), windows := k.windows + [(s.ring[0], At(s, p))], due := due);
    ChosenInv(s, p);
    ChosenRing(s, p);
    ChosenTarget(s, p);
    OpenAppend(k.windows, (s.ring[0], At(s, p)));
    hide Inv, Walk, Chosen, Unlink, Turn, Open, Last, WellFormed;
    assert Target(w) == At(s, p);
    assert Without(w.windows, |k.windows|) == k.windows;
  }

  /** The context chosen is live. */
  lemma ChosenTarget<C, S>(s: Sched<C, S>, k: nat)
    requires Inv(s) && s.running && 1 <= k <= |s.ring| && Walk(s, 1) == Found(k)
    ensures At(s, k) in s.etat && At(s, k) !in Chosen(s, k).freed && Runnable(s.etat[At(s, k)])
  {
    WalkPasses(s, 1);
    assert At(s, k) in s.ring;
  }

  lemma ChosenInv<C, S>(s: Sched<C, S>, k: nat)
    requires Inv(s) && s.running && 1 <= k <= |s.ring| && Walk(s, 1) == Found(k)
    ensures Inv(Chosen(s, k)) && WellFormed(Chosen(s, k))
    ensures var t := Chosen(s, k);
            t.etat == s.etat && t.sems == s.sems && t.running && t.ring != [] && t.ring[0] == s.ring[0]
  {
    var t := Chosen(s, k);
    assert t.etat == s.etat && t.sems == s.sems && t.running && t.ring != [] && t.ring[0] == s.ring[0];
    ChosenRingInv(s, k);
    hide Chosen, CountsInv, RingInv, Walk;
    SameLists(s, t);
  }

  /** The same contexts, short of some TERMINATED ones, in another order. */
  lemma Reshaped<C, S>(s: Sched<C, S>, t: Sched<C, S>, gone: set<C>)
    requires RingInv(s) && s.running && t == s.(ring := t.ring, head := t.head, freed := s.freed + gone)
    requires Distinct(t.ring) && t.ring != [] && (forall c :: c in t.ring ==> c in s.ring)
    requires forall c :: c in s.ring ==> c in t.ring || c in gone
    requires forall c :: c in gone ==> c in s.etat && s.etat[c] == TERMINATED
    requires t.head.Some? && t.head.value in t.ring && t.head.value !in t.freed
    requires t.ring[0] !in t.freed && s.etat[t.ring[0]] != READY
    ensures RingInv(t)
  {
  }

  lemma ReapedDead<C, S>(s: Sched<C, S>, k: nat)
    requires WellFormed(s) && s.ring != [] && 1 <= k <= |s.ring|
    ensures forall c :: c in Reaped(s, k) ==> c in s.ring && c in s.etat && s.etat[c] == TERMINATED
  {
    hide Walk, Relink;
  }

  lemma ChosenRingInv<C, S>(s: Sched<C, S>, k: nat)
    requires RingInv(s) && s.running && 1 <= k <= |s.ring| && Walk(s, 1) == Found(k)
    ensures RingInv(Chosen(s, k))
  {
    WalkPasses(s, 1);
    UnlinkRing(s, k);
    UnlinkHead(s, k);
    ChosenRing(s, k);
    var t := Chosen(s, k);
    assert t.freed == s.freed + Reaped(s, k) && t.head == Unlink(s, k).head;
    assert t.ring[0] !in t.freed && s.etat[t.ring[0]] != READY;
    ReapedDead(s, k);
    assert t == s.(ring := t.ring, head := t.head, freed := s.freed + Reaped(s, k));
    hide RingInv, Chosen, Unlink, Reaped, WellFormed, Relink, Walk, IndexOf;
    Reshaped(s, t, Reaped(s, k));
  }

  /** A context becomes ACTIVABLE as its entry point is called, wherever it is on the ring. */
  lemma EnterAnywhere<C, S>(s: Sched<C, S>, t: C)
    requires RingInv(s) && s.running && t in s.ring && s.etat[t] == READY
    ensures RingInv(s.(etat := s.etat[t := ACTIVABLE], entries := s.entries[t := s.entries[t] + 1]))
  {
  }

  lemma TurnSeq<C, S>(s: Sched<C, S>, t: C)
    requires Distinct(s.ring) && t in s.ring
    ensures var r := Turn(s, t).ring;
            Distinct(r) && r != [] && r[0] == t && forall c :: c in r <==> c in s.ring
    ensures Turn(s, t) == s.(ring := Turn(s, t).ring)
  {
    var i := IndexOf(s.ring, t);
    assert s.ring == s.ring[..i] + s.ring[i..];
    Rotated(s.ring[..i], s.ring[i..]);
  }

  lemma TurnRing<C, S>(s: Sched<C, S>, t: C)
    requires RingInv(s) && s.running && t in s.ring && t !in s.freed
    ensures SwitchCtx(s, t).Go? && SwitchCtx(s, t).s.ring != [] && SwitchCtx(s, t).s.ring[0] == t
    ensures forall c :: c in SwitchCtx(s, t).s.ring <==> c in s.ring
    ensures RingInv(SwitchCtx(s, t).s)
  {
    TurnSeq(s, t);
    hide Turn, IndexOf, Distinct;
    var u := SwitchCtx(s, t).s;
    var v := if s.etat[t] == READY
             then s.(etat := s.etat[t := ACTIVABLE], entries := s.entries[t := s.entries[t] + 1]) else s;
    if s.etat[t] == READY { EnterAnywhere(s, t); }
    assert u == v.(ring := u.ring, head := u.head, freed := v.freed + {});
    assert s.head.value in s.ring && s.head.value !in s.freed;
    hide RingInv, WellFormed;
    Reshaped(v, u, {});
  }

  /** The ring turned, and the context it is turned to entered. */
  lemma TurnInv<C, S>(s: Sched<C, S>, t: C)
    requires Inv(s) && s.running && t in s.ring && t !in s.freed
    ensures SwitchCtx(s, t).Go? && Inv(SwitchCtx(s, t).s) && WellFormed(SwitchCtx(s, t).s)
    ensures var u := SwitchCtx(s, t).s;
            && u.ring != [] && u.ring[0] == t && u.running && u.sems == s.sems && u.freed == s.freed
            && (forall c :: c in u.ring <==> c in s.ring)
            && t in s.etat && u.etat == if s.etat[t] == READY then s.etat[t := ACTIVABLE] else s.etat
  {
    TurnRing(s, t);
    var u := SwitchCtx(s, t).s;
    assert t in s.etat && u.etat == if s.etat[t] == READY then s.etat[t := ACTIVABLE] else s.etat;
    assert u.running && u.sems == s.sems && u.freed == s.freed;
    TurnLists(s, u, t);
    assert WellFormed(u);
    hide ListsInv, RingInv, CountsInv, SwitchCtx, WellFormed;
  }

  lemma TurnLists<C, S>(s: Sched<C, S>, u: Sched<C, S>, t: C)
    requires ListsInv(s) && u.sems == s.sems && t in s.etat
    requires u.etat == if s.etat[t] == READY then s.etat[t := ACTIVABLE] else s.etat
    ensures ListsInv(u)
  {
    SameLists(s, u);
  }

  // ---- The invariant ----------------------------------------------------------------------------

  /** The contexts in the windows have been created; before the first switch there is nothing but contexts
      and semaphores. */
  predicate WindowsInv<C(==), S>(k: Kernel<C, S>) {
    && (forall p :: p in k.windows ==> p.0 in k.s.etat && p.1 in k.s.etat)
    && (!k.s.running ==> k.windows == [] && k.due == {} && k.calling == map[] && k.inside == {})
  }

  predicate KernelInv<C(==), S(==)>(k: Kernel<C, S>) {
    Inv(k.s) && WindowsInv(k)
  }

  /** The running context makes a call it must not make any more. */
  predicate Stale<C, S>(k: Kernel<C, S>, a: Act<C, S>)
    requires WellFormed(k.s) && Permitted(k, a)
  {
    a.Call? && StaleCall(k.s, a.ev)
  }

  /** A call never takes a context out of the table of etat. */
  lemma Remembered<C, S>(s: Sched<C, S>, ev: Event<C, S>)
    requires WellFormed(s) && Callable(s, ev) && !ev.Yield? && Step(s, ev).Go?
    ensures forall c :: c in s.etat ==> c in Step(s, ev).s.etat
    ensures Step(s, ev).s.running == s.running
  {
    hide WellFormed;
  }

  lemma ChooseKeeps<C, S>(k: Kernel<C, S>, tick: bool)
    requires KernelInv(k) && ChooseStep(k, tick).Go?
    ensures KernelInv(ChooseStep(k, tick).s)
  {
    var s := k.s;
    if s.running {
      WalkPasses(s, 1);
      ChosenInv(s, Walk(s, 1).k);
      assert ChooseStep(k, tick).s.s == Chosen(s, Walk(s, 1).k) && WellFormed(s);
      hide Inv, Chosen, ChooseStep, WindowsInv;
    } else {
      StepInv(s, Yield);
      assert ChooseStep(k, tick).s.s == YieldCtx(s).s && Step(s, Yield) == YieldCtx(s) && WellFormed(s);
      hide Inv, ChooseStep, WindowsInv;
    }
    ChosenWindows(k, tick);
  }

  lemma TargetKnown<C, S>(k: Kernel<C, S>)
    requires KernelInv(k) && InWindow(k)
    ensures Target(k) in k.s.etat && (Target(k) !in k.s.freed ==> Target(k) in k.s.ring)
  {
    assert k.windows[Last(k.windows, k.s.ring[0])] in k.windows;
  }

  /** A switch fails exactly when the target was freed in the window. It leaves an ACTIVABLE context running
      exactly when the target has remained READY or ACTIVABLE. */
  lemma SwitchExact<C, S>(k: Kernel<C, S>)
    requires KernelInv(k) && InWindow(k)
    ensures Target(k) in k.s.etat
    ensures SwitchStep(k).Crash? <==> Target(k) in k.s.freed
    ensures SwitchStep(k).Go? ==>
              var t := SwitchStep(k).s.s;
              && KernelInv(SwitchStep(k).s) && WellFormed(t) && t.running && Current(t) == Target(k)
              && (t.etat[Current(t)] == ACTIVABLE <==> Runnable(k.s.etat[Target(k)]))
  {
    TargetKnown(k);
    var c := Target(k);
    if c !in k.s.freed {
      TurnInv(k.s, c);
      hide Inv, SwitchCtx;
      SwitchedWindows(k);
      hide WindowsInv;
      assert Inv(SwitchStep(k).s.s);
    }
  }

  lemma SwitchedWindows<C, S>(k: Kernel<C, S>)
    requires WellFormed(k.s) && WindowsInv(k) && InWindow(k) && SwitchStep(k).Go? && k.s.running
    requires forall c :: c in k.s.etat ==> c in SwitchStep(k).s.s.etat
    requires SwitchStep(k).s.s.running
    ensures WindowsInv(SwitchStep(k).s)
  {
    assert forall p :: p in Without(k.windows, Last(k.windows, k.s.ring[0])) ==> p in k.windows;
    hide SwitchCtx, WellFormed, Without;
  }

  lemma ChosenWindows<C, S>(k: Kernel<C, S>, tick: bool)
    requires WellFormed(k.s) && WindowsInv(k) && ChooseStep(k, tick).Go?
    ensures WindowsInv(ChooseStep(k, tick).s)
  {
    if k.s.running {
      WalkFound(k.s, 1);
      var p := Walk(k.s, 1).k;
      assert At(k.s, p) in k.s.ring && At(k.s, p) in k.s.etat && k.s.ring[0] in k.s.etat;
      assert ChooseStep(k, tick).s.windows == k.windows + [(k.s.ring[0], At(k.s, p))];
      assert ChooseStep(k, tick).s.s.etat == k.s.etat && ChooseStep(k, tick).s.s.running;
      hide ChooseStep, Walk, WellFormed;
    }
  }

  lemma TurnKeeps<C, S>(k: Kernel<C, S>)
    requires WellFormed(k.s) && InWindow(k) && SwitchStep(k).Go?
    ensures forall c :: c in k.s.etat ==> c in SwitchStep(k).s.s.etat
    ensures SwitchStep(k).s.s.running
  {
    hide Target, IndexOf;
  }

  /** Whatever else goes wrong. */
  lemma WindowsKeep<C, S>(k: Kernel<C, S>, a: Act<C, S>)
    requires WellFormed(k.s) && WindowsInv(k) && Permitted(k, a) && Do(k, a).Go?
    ensures WindowsInv(Do(k, a).s)
  {
    match a
    case Choose(tick) =>
      ChosenWindows(k, tick);
      hide WellFormed, ChooseStep;
    case Switch =>
      TurnKeeps(k);
      SwitchedWindows(k);
      hide WellFormed, SwitchStep;
    case Call(ev) =>
      Remembered(k.s, ev);
      hide WellFormed, Step;
  }

  lemma CallKeeps<C, S>(k: Kernel<C, S>, ev: Event<C, S>)
    requires KernelInv(k) && Permitted(k, Call(ev)) && CallStep(k, ev).Go? && !StaleCall(k.s, ev)
    ensures KernelInv(CallStep(k, ev).s)
  {
    StepKeeps(k.s, ev);
    Remembered(k.s, ev);
    hide Inv, Step, WellFormed, StaleCall;
  }

  /** One act keeps the joint invariant of ring, lists and counters exactly when it is not a stale call. */
  lemma DoExact<C, S>(k: Kernel<C, S>, a: Act<C, S>)
    requires KernelInv(k) && Permitted(k, a) && Do(k, a).Go?
    ensures Inv(Do(k, a).s.s) <==> !Stale(k, a)
    ensures Inv(Do(k, a).s.s) ==> KernelInv(Do(k, a).s)
  {
    match a
    case Choose(tick) => ChooseKeeps(k, tick);
    case Switch => SwitchExact(k);
    case Call(ev) =>
      StepExact(k.s, ev);
      if !StaleCall(k.s, ev) { CallKeeps(k, ev); }
  }

  // ---- The joint invariant over runs ------------------------------------------------------------

  lemma {:induction false} WindowsRun<C, S>(tr: seq<Kernel<C, S>>, acts: seq<Act<C, S>>, i: nat)
    requires Preemption.IsRun(tr, acts) && WindowsInv(tr[0]) && i <= |acts|
    ensures WindowsInv(tr[i])
  {
    if i > 0 {
      ActAt(tr, acts, i - 1);
      hide WindowsInv, Do, Permitted;
      WindowsRun(tr, acts, i - 1);
      WindowsKeep(tr[i - 1], acts[i - 1]);
    }
  }

  lemma ActAt<C, S>(tr: seq<Kernel<C, S>>, acts: seq<Act<C, S>>, i: nat)
    requires Preemption.IsRun(tr, acts) && i < |acts|
    ensures WellFormed(tr[i].s) && Permitted(tr[i], acts[i]) && Do(tr[i], acts[i]) == Go(tr[i + 1])
  {
  }

  /** No stale call among the first `i` acts. */
  predicate NoStale<C(==), S(==)>(tr: seq<Kernel<C, S>>, acts: seq<Act<C, S>>, i: nat)
    requires Preemption.IsRun(tr, acts) && i <= |acts|
  {
    forall j :: 0 <= j < i ==> !Stale(tr[j], acts[j])
  }

  lemma {:induction false} KernelRun<C, S>(tr: seq<Kernel<C, S>>, acts: seq<Act<C, S>>, i: nat)
    requires Preemption.IsRun(tr, acts) && KernelInv(tr[0]) && i <= |acts| && NoStale(tr, acts, i)
    ensures KernelInv(tr[i])
  {
    if i > 0 {
      ActAt(tr, acts, i - 1);
      assert !Stale(tr[i - 1], acts[i - 1]);
      hide KernelInv, Inv, Do, Permitted, Stale;
      KernelRun(tr, acts, i - 1);
      DoExact(tr[i - 1], acts[i - 1]);
    }
  }

  /** Over every run, wherever the ticks fall, the joint invariant holds in all states exactly when no
      WAITING context returns from its entry point or blocks once more. */
  lemma RunExact<C, S>(tr: seq<Kernel<C, S>>, acts: seq<Act<C, S>>)
    requires Preemption.IsRun(tr, acts) && KernelInv(tr[0])
    ensures (forall i :: 0 <= i < |tr| ==> Inv(tr[i].s)) <==> NoStale(tr, acts, |acts|)
  {
    hide Inv, Do, Permitted, Stale, WindowsInv;
    if NoStale(tr, acts, |acts|) {
      forall i | 0 <= i < |tr| ensures Inv(tr[i].s) {
        KernelRun(tr, acts, i);
      }
    }
    if forall i :: 0 <= i < |tr| ==> Inv(tr[i].s) {
      forall j | 0 <= j < |acts| ensures !Stale(tr[j], acts[j]) {
        KernelSoFar(tr, acts, j);
        ActAt(tr, acts, j);
        assert Inv(tr[j + 1].s);
        DoExact(tr[j], acts[j]);
      }
    }
  }

  lemma {:induction false} KernelSoFar<C, S>(tr: seq<Kernel<C, S>>, acts: seq<Act<C, S>>, i: nat)
    requires Preemption.IsRun(tr, acts) && KernelInv(tr[0]) && i <= |acts|
    requires forall j :: 0 <= j < |tr| ==> Inv(tr[j].s)
    ensures KernelInv(tr[i])
  {
    hide Inv, Do, Permitted, Stale, WindowsInv;
    if i > 0 {
      KernelSoFar(tr, acts, i - 1);
      ActAt(tr, acts, i - 1);
      DoExact(tr[i - 1], acts[i - 1]);
    }
  }

  // ---- Fresh switches ---------------------------------------------------------------------------

  /** A switch whose target has not been freed and is still READY or ACTIVABLE. */
  predicate Fresh<C(==), S>(k: Kernel<C, S>, a: Act<C, S>)
    requires WellFormed(k.s) && Permitted(k, a)
  {
    a.Switch? ==> Target(k) in k.s.etat && Target(k) !in k.s.freed && Runnable(k.s.etat[Target(k)])
  }

  /** The running context goes on with its own code. */
  predicate Settled<C(==), S>(k: Kernel<C, S>)
    requires WellFormed(k.s)
  {
    k.s.running && k.s.ring[0] !in k.due && !InWindow(k)
  }

  predicate Sound<C(==), S(==)>(k: Kernel<C, S>) {
    && KernelInv(k) && WellFormed(k.s)
    && (Settled(k) ==> k.s.etat[k.s.ring[0]] == ACTIVABLE)
  }

  lemma SoundStep<C, S>(k: Kernel<C, S>, a: Act<C, S>)
    requires Sound(k) && Permitted(k, a) && Do(k, a).Go? && Fresh(k, a)
    ensures Sound(Do(k, a).s) && !Stale(k, a)
  {
    DoExact(k, a);
    match a
    case Choose(tick) =>
      ChooseSettles(k, tick);
      hide Inv;
    case Switch =>
      SwitchExact(k);
      hide Inv;
    case Call(ev) =>
      CallSettles(k, ev);
      hide Inv;
  }

  lemma ChooseSettles<C, S>(k: Kernel<C, S>, tick: bool)
    requires KernelInv(k) && WellFormed(k.s) && ChooseStep(k, tick).Go?
    ensures WellFormed(ChooseStep(k, tick).s.s) && ChooseStep(k, tick).s.s.running
    ensures k.s.running ==> InWindow(ChooseStep(k, tick).s)
    ensures !k.s.running ==> ChooseStep(k, tick).s.s.etat[ChooseStep(k, tick).s.s.ring[0]] == ACTIVABLE
  {
    ChooseKeeps(k, tick);
    if k.s.running {
      WalkPasses(k.s, 1);
      var p := Walk(k.s, 1).k;
      ChosenInv(k.s, p);
      OpenAppend(k.windows, (k.s.ring[0], At(k.s, p)));
      hide Inv, Chosen;
    } else {
      assert RingInv(k.s);
      hide ListsInv, CountsInv;
    }
  }

  lemma CallSettles<C, S>(k: Kernel<C, S>, ev: Event<C, S>)
    requires Sound(k) && Permitted(k, Call(ev)) && CallStep(k, ev).Go? && WellFormed(CallStep(k, ev).s.s)
    ensures Settled(CallStep(k, ev).s) ==>
              CallStep(k, ev).s.s.etat[CallStep(k, ev).s.s.ring[0]] == ACTIVABLE
  {
  }

  // ---- Freed nodes on the ring ------------------------------------------------------------------

  lemma ChooseIntact<C, S>(k: Kernel<C, S>, tick: bool)
    requires WellFormed(k.s) && FreedKnown(k.s) && Intact(k.s) && ChooseStep(k, tick).Go?
    ensures Intact(ChooseStep(k, tick).s.s) <==> !PairAhead(k.s)
    ensures FreedKnown(ChooseStep(k, tick).s.s)
  {
    var s := k.s;
    if s.running {
      WalkFound(s, 1);
      var p := Walk(s, 1).k;
      YieldReaps(s);
      assert YieldCtx(s).s.ring == Unlink(s, p).ring && YieldCtx(s).s.freed == Unlink(s, p).freed;
      ChosenRing(s, p);
      var t := ChooseStep(k, tick).s.s;
      assert t.ring == Chosen(s, p).ring && t.freed == Unlink(s, p).freed && t.etat == s.etat;
      ReapedDead(s, p);
      assert Unlink(s, p).freed == s.freed + Reaped(s, p);
      hide Chosen, Unlink, YieldCtx, ChooseStep, PairAhead, WellFormed, Reaped;
    }
  }

  lemma SwitchIntact<C, S>(k: Kernel<C, S>)
    requires WellFormed(k.s) && FreedKnown(k.s) && Intact(k.s) && InWindow(k) && SwitchStep(k).Go?
    ensures Intact(SwitchStep(k).s.s) && FreedKnown(SwitchStep(k).s.s)
  {
    TurnSeq(k.s, Target(k));
    TurnKeeps(k);
    assert SwitchStep(k).s.s.ring == Turn(k.s, Target(k)).ring && SwitchStep(k).s.s.freed == k.s.freed;
    hide SwitchStep, Turn, Target, WellFormed;
  }

  lemma CallIntact<C, S>(k: Kernel<C, S>, ev: Event<C, S>)
    requires WellFormed(k.s) && FreedKnown(k.s) && Intact(k.s) && Permitted(k, Call(ev)) && CallStep(k, ev).Go?
    ensures Intact(CallStep(k, ev).s.s) && FreedKnown(CallStep(k, ev).s.s)
  {
    StepIntact(k.s, ev);
    Remembered(k.s, ev);
    assert Step(k.s, ev).s.freed == k.s.freed;
    hide Step, WellFormed, Intact;
  }

  /** Whatever else goes wrong, an act leaves a freed node on the ring exactly when it chooses past two TERMINATED
      neighbours. */
  lemma IntactExact<C, S>(k: Kernel<C, S>, a: Act<C, S>)
    requires WellFormed(k.s) && FreedKnown(k.s) && Permitted(k, a) && Do(k, a).Go? && Intact(k.s)
    ensures Intact(Do(k, a).s.s) <==> !(a.Choose? && PairAhead(k.s))
    ensures FreedKnown(Do(k, a).s.s)
  {
    hide WellFormed, FreedKnown, Intact, PairAhead, ChooseStep, SwitchStep, CallStep;
    match a
    case Choose(tick) => ChooseIntact(k, tick);
    case Switch => SwitchIntact(k);
    case Call(ev) => CallIntact(k, ev);
  }

  /** Over every run, wherever the ticks fall and whatever they break, the ring never holds a freed node exactly
      when no yield passes two TERMINATED neighbours. */
  lemma IntactRunExact<C, S>(tr: seq<Kernel<C, S>>, acts: seq<Act<C, S>>)
    requires Preemption.IsRun(tr, acts) && FreedKnown(tr[0].s) && Intact(tr[0].s)
    ensures (forall i :: 0 <= i < |tr| ==> Intact(tr[i].s)) <==>
            (forall i :: 0 <= i < |acts| && acts[i].Choose? ==> !PairAhead(tr[i].s))
  {
    hide FreedKnown, Intact, PairAhead, Do, Permitted;
    if forall i :: 0 <= i < |acts| && acts[i].Choose? ==> !PairAhead(tr[i].s) {
      forall i | 0 <= i < |tr| ensures Intact(tr[i].s) {
        IntactSoFar(tr, acts, i);
      }
    }
    if forall i :: 0 <= i < |tr| ==> Intact(tr[i].s) {
      forall i | 0 <= i < |acts| && acts[i].Choose? ensures !PairAhead(tr[i].s) {
        IntactUntil(tr, acts, i);
        ActAt(tr, acts, i);
        IntactExact(tr[i], acts[i]);
        assert Intact(tr[i + 1].s);
      }
    }
  }

  lemma {:induction false} IntactSoFar<C, S>(tr: seq<Kernel<C, S>>, acts: seq<Act<C, S>>, j: nat)
    requires Preemption.IsRun(tr, acts) && FreedKnown(tr[0].s) && Intact(tr[0].s)
    requires j <= |acts| && forall i :: 0 <= i < |acts| && acts[i].Choose? ==> !PairAhead(tr[i].s)
    ensures Intact(tr[j].s) && FreedKnown(tr[j].s)
  {
    hide FreedKnown, Intact, PairAhead, Do, Permitted;
    if j > 0 {
      IntactSoFar(tr, acts, j - 1);
      ActAt(tr, acts, j - 1);
      IntactExact(tr[j - 1], acts[j - 1]);
    }
  }

  lemma {:induction false} IntactUntil<C, S>(tr: seq<Kernel<C, S>>, acts: seq<Act<C, S>>, j: nat)
    requires Preemption.IsRun(tr, acts) && FreedKnown(tr[0].s) && j <= |acts|
    requires forall i :: 0 <= i < |tr| ==> Intact(tr[i].s)
    ensures FreedKnown(tr[j].s)
  {
    hide FreedKnown, Intact, PairAhead, Do, Permitted;
    if j > 0 {
      IntactUntil(tr, acts, j - 1);
      ActAt(tr, acts, j - 1);
      IntactExact(tr[j - 1], acts[j - 1]);
    }
  }

  // ---- Runs without ticks inside yield ----------------------------------------------------------

  function Bare<C, S>(s: Sched<C, S>): Kernel<C, S> {
    Kernel(s, [], {}, map[], {})
  }

  /** No window is open, and a yield is due to the running context only, when it cannot go on. */
  predicate Between<C(==), S>(k: Kernel<C, S>, s: Sched<C, S>)
    requires WellFormed(s)
  {
    && k.s == s && k.windows == []
    && (forall c :: c in k.due ==> s.running && c == s.ring[0] && s.etat[c] != ACTIVABLE)
  }

  lemma Snoc<C, S>(tr: seq<Kernel<C, S>>, acts: seq<Act<C, S>>, a: Act<C, S>, t: Kernel<C, S>)
    requires Preemption.IsRun(tr, acts) && WellFormed(tr[|acts|].s) && Permitted(tr[|acts|], a)
    requires Do(tr[|acts|], a) == Go(t)
    ensures Preemption.IsRun(tr + [t], acts + [a]) && (tr + [t])[0] == tr[0] && (tr + [t])[|acts + [a]|] == t
  {
    hide WellFormed, Permitted, Do;
  }

  lemma BetweenCall<C, S>(k: Kernel<C, S>, ev: Event<C, S>)
    requires WellFormed(k.s) && Between(k, k.s) && Enabled(k.s, ev) && !ev.Yield? && Step(k.s, ev).Go?
    requires WellFormed(Step(k.s, ev).s)
    ensures Permitted(k, Call(ev)) && CallStep(k, ev).Go? && Between(CallStep(k, ev).s, Step(k.s, ev).s)
  {
  }

  lemma BetweenYield<C, S>(k: Kernel<C, S>)
    requires Inv(k.s) && WellFormed(k.s) && Between(k, k.s) && YieldCtx(k.s).Go? && WellFormed(YieldCtx(k.s).s)
    ensures Permitted(k, Choose(false)) && ChooseStep(k, false).Go?
    ensures !k.s.running ==> Between(ChooseStep(k, false).s, YieldCtx(k.s).s)
    ensures k.s.running ==>
              && WellFormed(ChooseStep(k, false).s.s) && InWindow(ChooseStep(k, false).s)
              && SwitchStep(ChooseStep(k, false).s).Go?
              && Between(SwitchStep(ChooseStep(k, false).s).s, YieldCtx(k.s).s)
  {
    AtomicYield(k, false);
    Outside(k);
    if k.s.running {
      OwnYield(k);
      var w := ChooseStep(k, false).s;
      hide Inv, YieldCtx, ChooseStep, WellFormed, InWindow;
      NoneDue(k, w);
      BetweenSwitch(w);
      hide SwitchStep;
    } else {
      hide Inv, YieldCtx, Enter, InWindow;
    }
  }

  lemma Outside<C, S>(k: Kernel<C, S>)
    requires WellFormed(k.s) && k.windows == []
    ensures !InWindow(k)
  {
  }

  lemma OwnYield<C, S>(k: Kernel<C, S>)
    requires WellFormed(k.s) && k.s.running && ChooseStep(k, false).Go?
    ensures ChooseStep(k, false).s.due == k.due - {k.s.ring[0]}
  {
    hide Chosen;
  }

  lemma NoneDue<C, S>(k: Kernel<C, S>, w: Kernel<C, S>)
    requires WellFormed(k.s) && Between(k, k.s) && k.s.running && w.due == k.due - {k.s.ring[0]}
    ensures w.due == {}
  {
    hide WellFormed;
  }

  lemma BetweenSwitch<C, S>(w: Kernel<C, S>)
    requires WellFormed(w.s) && InWindow(w) && SwitchStep(w).Go?
    ensures SwitchStep(w).s.due == w.due
  {
    hide WellFormed, SwitchCtx, Target;
  }

  /** Every run in which a yield is one step is a run of acts, with the same states between them. */
  lemma {:induction false} AtomicRun<C, S>(tr: seq<Sched<C, S>>, evs: seq<Event<C, S>>, n: nat)
      returns (ktr: seq<Kernel<C, S>>, acts: seq<Act<C, S>>)
    requires SchedulerSpec.IsRun(tr, evs) && Inv(tr[0]) && WellFormed(tr[0]) && n <= |evs|
    ensures Preemption.IsRun(ktr, acts) && ktr[0] == Bare(tr[0]) && WellFormed(tr[n])
    ensures Between(ktr[|acts|], tr[n])
  {
    if n == 0 {
      ktr, acts := [Bare(tr[0])], [];
    } else {
      ktr, acts := AtomicRun(tr, evs, n - 1);
      RunInv(tr, evs, n - 1);
      RunInv(tr, evs, n);
      RunAt(tr, evs, n - 1);
      InvFormed(tr[n]);
      var k := ktr[|acts|];
      hide Inv, Step, Enabled, Do, WellFormed;
      ktr, acts := AtomicMore(ktr, acts, k, evs[n - 1], tr[n]);
    }
  }

  lemma InvFormed<C, S>(s: Sched<C, S>)
    requires Inv(s)
    ensures WellFormed(s)
  {
  }

  lemma AtomicMore<C, S>(ktr: seq<Kernel<C, S>>, acts: seq<Act<C, S>>, k: Kernel<C, S>, ev: Event<C, S>, t: Sched<C, S>)
      returns (ktr': seq<Kernel<C, S>>, acts': seq<Act<C, S>>)
    requires Preemption.IsRun(ktr, acts) && k == ktr[|acts|]
    requires Inv(k.s) && WellFormed(k.s) && Between(k, k.s)
    requires Enabled(k.s, ev) && Step(k.s, ev) == Go(t) && WellFormed(t)
    ensures Preemption.IsRun(ktr', acts') && ktr'[0] == ktr[0] && Between(ktr'[|acts'|], t)
  {
    hide Inv, WellFormed, Preemption.IsRun, ChooseStep, SwitchStep, CallStep, InWindow, YieldCtx;
    if !ev.Yield? {
      BetweenCall(k, ev);
      Snoc(ktr, acts, Call(ev), CallStep(k, ev).s);
      ktr', acts' := ktr + [CallStep(k, ev).s], acts + [Call(ev)];
    } else {
      BetweenYield(k);
      var w := ChooseStep(k, false).s;
      Snoc(ktr, acts, Choose(false), w);
      ktr', acts' := ktr + [w], acts + [Choose(false)];
      if k.s.running {
        Snoc(ktr', acts', Switch, SwitchStep(w).s);
        ktr', acts' := ktr' + [SwitchStep(w).s], acts' + [Switch];
      }
    }
  }
}

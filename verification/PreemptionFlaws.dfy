/** What a tick inside yield can do: two contexts are enough to resume one that has returned, and to have both
    between sem_down and sem_up on a semaphore of value 1. */
module PreemptionFlaws {
  import opened Collections
  import opened SchedulerSpec
  import opened SchedulerInvariant
  import opened SchedulerTheorems
  import opened Preemption
  import opened PreemptionTheorems
  import opened PreemptionTokens

  predicate Leads<C(==), S(==)>(k: Kernel<C, S>, a: Act<C, S>, t: Kernel<C, S>) {
    WellFormed(k.s) && Permitted(k, a) && Do(k, a) == Go(t)
  }

  /** The acts lead from `k` to `t`, each in turn. */
  ghost predicate Reaches<C(!new), S(!new)>(k: Kernel<C, S>, acts: seq<Act<C, S>>, t: Kernel<C, S>) {
    exists tr ::
      && Preemption.IsRun(tr, acts) && tr[0] == k && tr[|acts|] == t
      && forall i :: 0 <= i < |acts| ==> InTurn(tr[i], acts[i])
  }

  lemma Here<C(!new), S(!new)>(k: Kernel<C, S>)
    ensures Reaches(k, [], k)
  {
    assert Preemption.IsRun([k], []) && [k][0] == k;
  }

  lemma Then<C(!new), S(!new)>(k: Kernel<C, S>, acts: seq<Act<C, S>>, t: Kernel<C, S>, a: Act<C, S>, u: Kernel<C, S>)
    requires Reaches(k, acts, t) && Leads(t, a, u) && InTurn(t, a)
    ensures Reaches(k, acts + [a], u)
  {
    hide WellFormed, Permitted, Do, InTurn;
    var tr :| Preemption.IsRun(tr, acts) && tr[0] == k && tr[|acts|] == t
              && forall i :: 0 <= i < |acts| ==> InTurn(tr[i], acts[i]);
    assert Preemption.IsRun(tr + [u], acts + [a]) && (tr + [u])[0] == k && (tr + [u])[|acts + [a]|] == u;
  }

  // ---- Two contexts -----------------------------------------------------------------------------

  /** Two contexts on the ring, neither of them freed. */
  predicate Two<C(==), S>(s: Sched<C, S>, a: C, b: C) {
    WellFormed(s) && s.running && s.ring == [a, b] && s.freed == {}
  }

  lemma TwoChoose<C, S>(k: Kernel<C, S>, a: C, b: C, tick: bool)
    requires Two(k.s, a, b) && Runnable(k.s.etat[b]) && (tick || !InWindow(k))
    ensures Leads(k, Choose(tick), k.(windows := k.windows + [(a, b)], due := if tick then k.due else k.due - {a}))
  {
    var s := k.s;
    assert Walk(s, 1) == Found(1) && s.ring[1..1] == [];
    assert Chosen(s, 1).ring == [a, b];
    assert Chosen(s, 1) == s;
  }

  /** `s` with `b` entered. */
  function Entered<C, S>(s: Sched<C, S>, a: C, b: C): Sched<C, S>
    requires Two(s, a, b)
  {
    Enter(s.(ring := [b, a]))
  }

  lemma TwoSwitch<C, S>(k: Kernel<C, S>, w: seq<(C, C)>, a: C, b: C)
    requires Two(k.s, a, b) && k.windows == w + [(a, b)]
    ensures Two(Entered(k.s, a, b), b, a)
    ensures Leads(k, Switch, Resumed(k.(s := Entered(k.s, a, b), windows := w), b))
  {
    OpenAppend(w, (a, b));
    assert Target(k) == b && Without(k.windows, |w|) == w;
    IndexUnique(k.s.ring, 1);
    assert Turn(k.s, b) == k.s.(ring := [b, a]);
  }

  /** `a` has chosen `b` and is interrupted before it switches; the tick runs `b`. */
  lemma TickInWindow<C(!new), S(!new)>(k0: Kernel<C, S>, acts: seq<Act<C, S>>, k: Kernel<C, S>, a: C, b: C)
      returns (t: Kernel<C, S>)
    requires Reaches(k0, acts, k) && k.due == {}
    requires Two(k.s, a, b) && k.windows == [] && Runnable(k.s.etat[b]) && b !in k.calling
    ensures Reaches(k0, acts + [Choose(false)] + [Choose(true)] + [Switch], t)
    ensures t == k.(s := Entered(k.s, a, b), windows := [(a, b)])
    ensures WellFormed(t.s) && !InWindow(t)
    ensures Two(t.s, b, a) && t.s.etat[b] == ACTIVABLE && t.s.etat[a] == k.s.etat[a] && t.s.sems == k.s.sems
  {
    var k1 := k.(windows := k.windows + [(a, b)]);
    var k2 := k1.(windows := k1.windows + [(a, b)]);
    assert k.due - {a} == {};
    TwoChoose(k, a, b, false);
    TwoChoose(k1, a, b, true);
    TwoSwitch(k2, k1.windows, a, b);
    t := k2.(s := Entered(k.s, a, b), windows := [(a, b)]);
    assert k1.windows == [(a, b)] && k2.(windows := k1.windows) == k1;
    assert a != b by { assert k.s.ring[0] != k.s.ring[1]; }
    assert t.s.etat[b] == ACTIVABLE;
    assert !Open([(a, b)], b) by { assert [(a, b)][..0] == []; }
    assert !InWindow(t);
    hide Leads, Reaches, Two;
    Then(k0, acts, k, Choose(false), k1);
    Then(k0, acts + [Choose(false)], k1, Choose(true), k2);
    Then(k0, acts + [Choose(false)] + [Choose(true)], k2, Switch, t);
  }

  /** `b` leaves the processor, and `a` goes on with its switch to `b`. */
  lemma BackToWindow<C(!new), S(!new)>(k0: Kernel<C, S>, acts: seq<Act<C, S>>, k: Kernel<C, S>, a: C, b: C)
      returns (t: Kernel<C, S>)
    requires Reaches(k0, acts, k) && Two(k.s, b, a) && k.windows == [(a, b)] && k.s.etat[a] == ACTIVABLE
    requires k.s.etat[b] != READY && k.due == {b}
    ensures Reaches(k0, acts + [Choose(false)] + [Switch] + [Switch], t)
    ensures t == Resumed(k.(windows := [], due := {}), b) && t.s == k.s
  {
    var k1 := k.(windows := [(a, b)] + [(b, a)], due := {});
    var k2 := k1.(s := Entered(k.s, b, a), windows := [(a, b)]);
    assert k.due - {b} == {};
    assert a != b by { assert k.s.ring[0] != k.s.ring[1]; }
    assert !Open([(a, b)], b) by { assert [(a, b)][..0] == []; }
    TwoChoose(k, b, a, false);
    TwoSwitch(k1, [(a, b)], b, a);
    assert Resumed(k2, a) == k2;
    TwoSwitch(k2, [], a, b);
    assert Entered(k2.s, a, b) == k.s;
    t := Resumed(k.(windows := [], due := {}), b);
    hide Leads, Reaches, Two;
    Then(k0, acts, k, Choose(false), k1);
    Then(k0, acts + [Choose(false)], k1, Switch, k2);
    Then(k0, acts + [Choose(false)] + [Switch], k2, Switch, t);
  }

  function Across<C, S>(acts: seq<Act<C, S>>, ev: Event<C, S>): seq<Act<C, S>> {
    acts + [Choose(false)] + [Choose(true)] + [Switch] + [Call(ev)] + [Choose(false)] + [Switch] + [Switch]
  }

  /** From any such state the context that the tick ran returns, and is resumed all the same. */
  lemma TickBeforeSwitch<C(!new), S(!new)>(k0: Kernel<C, S>, acts: seq<Act<C, S>>, k: Kernel<C, S>, a: C, b: C)
    requires Reaches(k0, acts, k)
    requires Two(k.s, a, b) && k.windows == [] && k.due == {} && b !in k.calling
    requires k.s.etat[a] == ACTIVABLE && Runnable(k.s.etat[b])
    ensures exists t :: Reaches(k0, Across(acts, Event.Finish), t)
                        && Two(t.s, b, a) && Settled(t) && b in t.s.etat && t.s.etat[b] == TERMINATED
  {
    var k3 := TickInWindow(k0, acts, k, a, b);
    var k4 := k3.(s := FinishCtx(k3.s), due := {b});
    assert k3.due + {b} == {b};
    assert a != b by { assert k.s.ring[0] != k.s.ring[1]; }
    Then(k0, acts + [Choose(false)] + [Choose(true)] + [Switch], k3, Call(Event.Finish), k4);
    assert Two(k4.s, b, a);
    var t := BackToWindow(k0, acts + [Choose(false)] + [Choose(true)] + [Switch] + [Call(Event.Finish)], k4, a, b);
    assert Settled(t);
  }

  /** From any such state in which `a` has got the last token of `m`, both contexts come to be between sem_down
      and sem_up on it, though both alternate the two calls. */
  lemma ExclusionLost<C(!new), S(!new)>(k0: Kernel<C, S>, acts: seq<Act<C, S>>, k: Kernel<C, S>, a: C, b: C, m: S)
    requires Reaches(k0, acts, k)
    requires Two(k.s, a, b) && k.windows == [] && k.due == {} && b !in k.calling
    requires k.s.etat[a] == ACTIVABLE && Runnable(k.s.etat[b])
    requires m in k.s.sems && k.s.sems[m].val < 1 && (a, m) in k.inside && (b, m) !in k.inside
    ensures exists t :: Reaches(k0, Across(acts, Down(m)), t)
                        && Two(t.s, b, a) && Settled(t) && (a, m) in t.inside && (b, m) in t.inside
                        && m in t.s.sems && t.s.sems[m].holders == k.s.sems[m].holders
  {
    var k3 := TickInWindow(k0, acts, k, a, b);
    assert a != b by { assert k.s.ring[0] != k.s.ring[1]; }
    var k4 := Parked(k3, a, b, m);
    assert InTurn(k3, Call(Down(m)));
    assert k4.windows == [(a, b)] && k4.s.etat[a] == ACTIVABLE && k4.s.etat[b] == WAITING;
    assert b in k4.calling && k4.calling[b] == m && !Open<C>([], b) && k4.inside == k.inside;
    assert k4.s.sems[m].holders == k.s.sems[m].holders;
    hide Reaches, Leads, InTurn, Entered, InWindow;
    Then(k0, acts + [Choose(false)] + [Choose(true)] + [Switch], k3, Call(Down(m)), k4);
    var t := BackToWindow(k0, acts + [Choose(false)] + [Choose(true)] + [Switch] + [Call(Down(m))], k4, a, b);
    NoWindow(t);
  }

  lemma NoWindow<C, S>(t: Kernel<C, S>)
    requires WellFormed(t.s) && t.s.running && t.due == {} && t.windows == []
    ensures Settled(t)
  {
  }

  /** `b` finds no token. */
  lemma Parked<C, S>(k: Kernel<C, S>, a: C, b: C, m: S) returns (t: Kernel<C, S>)
    requires Two(k.s, b, a) && a != b && k.due == {} && !InWindow(k) && m in k.s.sems && k.s.sems[m].val < 1
    ensures Leads(k, Call(Down(m)), t) && Two(t.s, b, a) && t.windows == k.windows && t.inside == k.inside
    ensures t.due == {b} && t.calling == k.calling[b := m] && t.s.etat == k.s.etat[b := WAITING]
    ensures m in t.s.sems && t.s.sems[m].holders == k.s.sems[m].holders
  {
    t := CallStep(k, Down(m)).s;
    hide InWindow;
  }

  // ---- A run that loses mutual exclusion --------------------------------------------------------

  type World = Kernel<nat, nat>
  type Deed = Act<nat, nat>

  const FIRST: seq<Deed> := [Call(Create(0)), Call(Create(1)), Choose(false), Call(Down(0))]

  /** Context 0 holds the only token of semaphore 0; context 1 has not started. */
  function OneToken(): World {
    Kernel(Sched([0, 1], Some(0), true, map[0 := ACTIVABLE, 1 := READY], {}, map[0 := 1, 1 := 0],
                 map[0 := Sem(0, [], 1, 1, 0, 0, 0, {0})]),
           [], {}, map[], {(0, 0)})
  }

  lemma CreateOne(k: World, acts: seq<Deed>, t: World, c: nat, u: World)
    requires Reaches(k, acts, t) && WellFormed(t.s) && !t.s.running && t.due == {} && c !in t.s.etat
    requires u == t.(s := CreateCtx(t.s, c))
    ensures Reaches(k, acts + [Call(Create(c))], u)
  {
    assert Leads(t, Call(Create(c)), u);
    hide Leads, Reaches;
    Then(k, acts, t, Call(Create(c)), u);
  }

  /** Contexts, none of them freed, the first one created being at the head of the ring. */
  function Early(ring: seq<nat>, running: bool, etat: map<nat, Etat>, entries: map<nat, nat>): World {
    Kernel(Sched(ring, if ring == [] then None else Some(0), running, etat, {}, entries, map[0 := FreshSem<nat>(1)]),
           [], {}, map[], {})
  }

  lemma FirstStarts(t: World, u: World)
    requires t == Early([0, 1], false, map[0 := READY, 1 := READY], map[0 := 0, 1 := 0])
    requires u == Early([0, 1], true, map[0 := ACTIVABLE, 1 := READY], map[0 := 1, 1 := 0])
    ensures Leads(t, Choose(false), u)
  {
    assert t.s.etat[0 := ACTIVABLE] == u.s.etat && t.s.entries[0 := 1] == u.s.entries;
  }

  lemma FirstTakes(t: World)
    requires t == Early([0, 1], true, map[0 := ACTIVABLE, 1 := READY], map[0 := 1, 1 := 0])
    ensures Leads(t, Call(Down(0)), OneToken()) && InTurn(t, Call(Down(0)))
  {
    assert !InWindow(t);
    var u := CallStep(t, Down(0)).s;
    assert u.s.sems == OneToken().s.sems by { assert {} + Caller(t.s) == {0}; }
    assert u.inside == OneToken().inside;
  }

  lemma FirstCreated(k0: World, k1: World, k2: World)
    requires k0 == Early([], false, map[], map[]) && k1 == Early([0], false, map[0 := READY], map[0 := 0])
    requires k2 == Early([0, 1], false, map[0 := READY, 1 := READY], map[0 := 0, 1 := 0])
    ensures WellFormed(k0.s) && k1.s == CreateCtx(k0.s, 0)
    ensures WellFormed(k1.s) && k2.s == CreateCtx(k1.s, 1)
  {
    assert IndexOf(k1.s.ring, 0) == 0 && k1.s.ring[..1] + [1] + k1.s.ring[1..] == [0, 1];
  }

  lemma BootIs(k: World)
    requires k == Early([], false, map[], map[])
    ensures Preemption.Boot<nat, nat>(map[0 := 1]) == k
  {
  }

  lemma TokenTaken()
    ensures Reaches(Preemption.Boot(map[0 := 1]), FIRST, OneToken())
  {
    var k2 := Early([0, 1], false, map[0 := READY, 1 := READY], map[0 := 0, 1 := 0]);
    var k3 := Early([0, 1], true, map[0 := ACTIVABLE, 1 := READY], map[0 := 1, 1 := 0]);
    BothCreated(k2);
    FirstStarts(k2, k3);
    FirstTakes(k3);
    hide Leads, Reaches, OneToken, InTurn, Preemption.Boot;
    ThenTwo(Preemption.Boot(map[0 := 1]), [Call(Create(0)), Call(Create(1))], k2, k3);
    assert [Call(Create(0)), Call(Create(1))] + [Deed.Choose(false)] + [Call(Down(0))] == FIRST;
  }

  lemma BothCreated(k2: World)
    requires k2 == Early([0, 1], false, map[0 := READY, 1 := READY], map[0 := 0, 1 := 0])
    ensures Reaches(Preemption.Boot(map[0 := 1]), [Call(Create(0)), Call(Create(1))], k2)
  {
    var k0 := Early([], false, map[], map[]);
    BootIs(k0);
    var k1 := Early([0], false, map[0 := READY], map[0 := 0]);
    FirstCreated(k0, k1, k2);
    hide Leads, Reaches, CreateCtx, Preemption.Boot;
    var none: seq<Deed> := [];
    Here(k0);
    CreateOne(k0, none, k0, 0, k1);
    CreateOne(k0, none + [Call(Create(0))], k1, 1, k2);
    assert none + [Call(Create(0))] + [Call(Create(1))] == [Call(Create(0)), Call(Create(1))];
  }

  lemma ThenTwo(k: World, acts: seq<Deed>, t: World, u: World)
    requires Reaches(k, acts, t) && Leads(t, Choose(false), u) && Leads(u, Call(Down(0)), OneToken())
    requires InTurn(u, Call(Down(0)))
    ensures Reaches(k, acts + [Choose(false)] + [Call(Down(0))], OneToken())
  {
    Then(k, acts, t, Choose(false), u);
    Then(k, acts + [Choose(false)], u, Call(Down(0)), OneToken());
  }

  /** From a semaphore initialised to 1, eleven acts lead two contexts that alternate sem_down and sem_up to be
      both between the two. */
  lemma MutualExclusionFails()
    ensures exists t: World ::
              && Reaches(Preemption.Boot(map[0 := 1]), Across(FIRST, Down(0)), t)
              && (0, 0) in t.inside && (1, 0) in t.inside
  {
    TokenTaken();
    ExclusionLost(Preemption.Boot(map[0 := 1]), FIRST, OneToken(), 0, 1, 0);
  }
}

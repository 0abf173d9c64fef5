/** Two short runs of src/x86-64/examples/TP3.c that end on a bad pointer, though no tick falls inside a
    yield. */
module SchedulerFlaws {
  import opened Collections
  import opened SchedulerSpec
  import opened SchedulerInvariant

  type World = Sched<nat, nat>
  type Call = Event<nat, nat>

  predicate Leads(s: World, ev: Call, t: World) {
    WellFormed(s) && Enabled(s, ev) && Step(s, ev) == Go(t)
  }

  /** The events `evs` lead from `s` to `t`. */
  ghost predicate Reaches(s: World, evs: seq<Call>, t: World) {
    exists tr :: IsRun(tr, evs) && tr[0] == s && tr[|evs|] == t
  }

  lemma Then(s: World, evs: seq<Call>, t: World, ev: Call, u: World)
    requires Reaches(s, evs, t) && Leads(t, ev, u)
    ensures Reaches(s, evs + [ev], u)
  {
    hide WellFormed, Enabled, Step;
    var tr :| IsRun(tr, evs) && tr[0] == s && tr[|evs|] == t;
    assert IsRun(tr + [u], evs + [ev]) && (tr + [u])[0] == s && (tr + [u])[|evs + [ev]|] == u;
  }

  /** A state without freed context whose ctx_ring is the first context created. */
  function World0(sems: map<nat, Sem<nat>>, ring: seq<nat>, running: bool, etat: map<nat, Etat>,
                  entries: map<nat, nat>): World
  {
    Sched(ring, Some(0), running, etat, {}, entries, sems)
  }

  const ONE: seq<Call> := [Create(0)]
  const TWO: seq<Call> := [Create(0), Create(1)]
  const THREE: seq<Call> := [Create(0), Create(1), Create(2)]

  lemma CreateOne(s: World, t: World)
    requires s == World0(s.sems, [], false, map[], map[]).(head := None)
    requires t == World0(s.sems, [0], false, map[0 := READY], map[0 := 0])
    ensures Reaches(s, ONE, t)
  {
    assert Leads(s, Create(0), t);
    assert IsRun([s, t], ONE) && [s, t][0] == s && [s, t][1] == t;
  }

  lemma CreateTwo(s: World, t: World)
    requires s == World0(s.sems, [], false, map[], map[]).(head := None)
    requires t == World0(s.sems, [0, 1], false, map[0 := READY, 1 := READY], map[0 := 0, 1 := 0])
    ensures Reaches(s, TWO, t)
  {
    var r := World0(s.sems, [0], false, map[0 := READY], map[0 := 0]);
    CreateOne(s, r);
    assert Leads(r, Create(1), t) by {
      hide Reaches;
      assert IndexOf(r.ring, 0) == 0 && r.ring[..1] + [1] + r.ring[1..] == t.ring;
    }
    hide *;
    Then(s, ONE, r, Create(1), t);
  }

  lemma CreateThree(s: World, t: World)
    requires s == World0(s.sems, [], false, map[], map[]).(head := None)
    requires t == World0(s.sems, [0, 2, 1], false, map[0 := READY, 1 := READY, 2 := READY],
                         map[0 := 0, 1 := 0, 2 := 0])
    ensures Reaches(s, THREE, t)
  {
    var r := World0(s.sems, [0, 1], false, map[0 := READY, 1 := READY], map[0 := 0, 1 := 0]);
    CreateThird(r, t);
    hide Leads, Reaches;
    CreateTwo(s, r);
    Then(s, TWO, r, Create(2), t);
    assert TWO + [Create(2)] == THREE;
  }

  lemma CreateThird(r: World, t: World)
    requires r == World0(r.sems, [0, 1], false, map[0 := READY, 1 := READY], map[0 := 0, 1 := 0])
    requires t == World0(r.sems, [0, 2, 1], false, map[0 := READY, 1 := READY, 2 := READY],
                         map[0 := 0, 1 := 0, 2 := 0])
    ensures Leads(r, Create(2), t)
  {
    assert IndexOf(r.ring, 0) == 0 && r.ring[..1] + [2] + r.ring[1..] == t.ring;
  }

  /** The first yield, or any later one, turns to the next context when that one is READY. */
  lemma Start(s0: World, evs: seq<Call>, s: World, t: World)
    requires Reaches(s0, evs, s) && WellFormed(s) && s.freed == {} && s.head == Some(0)
    requires if s.running then |s.ring| >= 2 && s.ring[1] != 0 && t.ring == s.ring[1..] + [s.ring[0]]
             else s.ring != [] && t.ring == s.ring
    requires s.etat[t.ring[0]] == READY && s.entries[t.ring[0]] == 0
    requires t == World0(s.sems, t.ring, true, s.etat[t.ring[0] := ACTIVABLE], s.entries[t.ring[0] := 1])
    ensures Reaches(s0, evs + [Yield], t)
  {
    if s.running {
      assert Walk(s, 1) == Found(1) && s.ring[1..1] == [];
      assert Unlink(s, 1).ring == t.ring && Unlink(s, 1) == s.(ring := t.ring);
    }
    Then(s0, evs, s, Yield, t);
  }

  /** The running context returns. */
  lemma Return(s0: World, evs: seq<Call>, s: World, t: World)
    requires Reaches(s0, evs, s) && WellFormed(s) && s.running && s.etat[s.ring[0]] == ACTIVABLE
    requires t == s.(etat := s.etat[s.ring[0] := TERMINATED])
    ensures Reaches(s0, evs + [Finish], t)
  {
    assert Leads(s, Finish, t);
    hide Reaches, Leads;
    Then(s0, evs, s, Finish, t);
  }

  /** The shortest run to such a sem_up: a context blocks, another one wakes it and calls sem_up again. */
  lemma SecondUpCrashes()
    ensures exists t: World ::
              && Reaches(Boot(map[0 := 0]), TWO + [Yield] + [Down(0)] + [Yield] + [Up(0)], t)
              && WellFormed(t) && Enabled(t, Up(0)) && Step(t, Up(0)) == Crash
  {
    var s0: World := Boot(map[0 := 0]);
    var s2 := World0(s0.sems, [0, 1], false, map[0 := READY, 1 := READY], map[0 := 0, 1 := 0]);
    CreateTwo(s0, s2);
    var s3 := World0(s0.sems, [0, 1], true, map[0 := ACTIVABLE, 1 := READY], map[0 := 1, 1 := 0]);
    Start(s0, TWO, s2, s3);
    BlockAndWake(s0, TWO + [Yield], s3);
  }

  lemma BlockAndWake(s0: World, evs: seq<Call>, s3: World)
    requires 0 in s3.sems && s3.sems[0] == FreshSem(0)
    requires s3 == World0(s3.sems, [0, 1], true, map[0 := ACTIVABLE, 1 := READY], map[0 := 1, 1 := 0])
    requires Reaches(s0, evs, s3)
    ensures exists t: World ::
              && Reaches(s0, evs + [Down(0)] + [Yield] + [Up(0)], t)
              && WellFormed(t) && Enabled(t, Up(0)) && Step(t, Up(0)) == Crash
  {
    var sems := s3.sems[0 := Sem(-1, [0], 0, 0, 1, 0, 0, {})];
    var s4 := World0(sems, [0, 1], true, map[0 := WAITING, 1 := READY], map[0 := 1, 1 := 0]);
    Block(s3, s4);
    hide Reaches, Leads;
    Then(s0, evs, s3, Down(0), s4);
    var s5 := World0(sems, [1, 0], true, map[0 := WAITING, 1 := ACTIVABLE], map[0 := 1, 1 := 1]);
    Start(s0, evs + [Down(0)], s4, s5);
    hide WellFormed, Step;
    WakeAndCrash(s0, evs + [Down(0)] + [Yield], s5);
  }

  lemma Block(s: World, t: World)
    requires 0 in s.sems && s.sems[0] == FreshSem(0)
    requires s == World0(s.sems, [0, 1], true, map[0 := ACTIVABLE, 1 := READY], map[0 := 1, 1 := 0])
    requires t == s.(etat := map[0 := WAITING, 1 := READY], sems := s.sems[0 := Sem(-1, [0], 0, 0, 1, 0, 0, {})])
    ensures Leads(s, Down(0), t)
  {
    assert s.etat[0 := WAITING] == t.etat;
    assert [s.ring[0]] + s.sems[0].blocked == [0];
  }

  lemma WakeAndCrash(s0: World, evs: seq<Call>, s: World)
    requires 0 in s.sems && s.sems[0] == Sem(-1, [0], 0, 0, 1, 0, 0, {})
    requires s == World0(s.sems, [1, 0], true, map[0 := WAITING, 1 := ACTIVABLE], map[0 := 1, 1 := 1])
    requires Reaches(s0, evs, s)
    ensures exists t: World ::
              && Reaches(s0, evs + [Up(0)], t)
              && WellFormed(t) && Enabled(t, Up(0)) && Step(t, Up(0)) == Crash
  {
    var t := SemUp(s, 0).s;
    Then(s0, evs, s, Up(0), t);
  }

  /** Three contexts suffice to leave a freed node on the ring. Two of them return; the third one then
      ticks twice: the first walk frees its two neighbours but leaves one of them linked, the second walk
      meets it. */
  lemma AdjacentTerminatedCrash()
    ensures exists t: World ::
              && Reaches(Boot(map[]), THREE + [Yield] + [Finish] + [Yield] + [Finish] + [Yield] + [Yield], t)
              && t.ring == [1, 2] && 2 in t.freed
              && WellFormed(t) && Step(t, Yield) == Crash
  {
    var s0: World := Boot(map[]);
    var s4 := World0(map[], [0, 2, 1], true, map[0 := ACTIVABLE, 1 := READY, 2 := READY], map[0 := 1, 1 := 0, 2 := 0]);
    ThreeStart(s0, s4);
    hide Reaches, WellFormed, Step, Boot;
    TwoReturn(s0, THREE + [Yield], s4);
  }

  lemma ThreeStart(s0: World, s4: World)
    requires s0 == Boot(map[])
    requires s4 == World0(map[], [0, 2, 1], true, map[0 := ACTIVABLE, 1 := READY, 2 := READY],
                          map[0 := 1, 1 := 0, 2 := 0])
    ensures Reaches(s0, THREE + [Yield], s4)
  {
    assert s0.sems == map[];
    var s3 := World0(map[], [0, 2, 1], false, map[0 := READY, 1 := READY, 2 := READY], map[0 := 0, 1 := 0, 2 := 0]);
    hide Reaches;
    CreateThree(s0, s3);
    assert s3.etat[0 := ACTIVABLE] == s4.etat && s3.entries[0 := 1] == s4.entries;
    Start(s0, THREE, s3, s4);
  }

  lemma TwoReturn(s0: World, evs: seq<Call>, s4: World)
    requires s4 == World0(map[], [0, 2, 1], true, map[0 := ACTIVABLE, 1 := READY, 2 := READY],
                          map[0 := 1, 1 := 0, 2 := 0])
    requires Reaches(s0, evs, s4)
    ensures exists t: World ::
              && Reaches(s0, evs + [Finish] + [Yield] + [Finish] + [Yield] + [Yield], t)
              && t.ring == [1, 2] && 2 in t.freed
              && WellFormed(t) && Step(t, Yield) == Crash
  {
    var s6 := World0(map[], [2, 1, 0], true, map[0 := TERMINATED, 1 := READY, 2 := ACTIVABLE],
                     map[0 := 1, 1 := 0, 2 := 1]);
    FirstReturns(s0, evs, s4, s6);
    hide Reaches, WellFormed, Step;
    OneLeft(s0, evs + [Finish] + [Yield], s6);
  }

  lemma FirstReturns(s0: World, evs: seq<Call>, s4: World, s6: World)
    requires s4 == World0(map[], [0, 2, 1], true, map[0 := ACTIVABLE, 1 := READY, 2 := READY],
                          map[0 := 1, 1 := 0, 2 := 0])
    requires s6 == World0(map[], [2, 1, 0], true, map[0 := TERMINATED, 1 := READY, 2 := ACTIVABLE],
                          map[0 := 1, 1 := 0, 2 := 1])
    requires Reaches(s0, evs, s4)
    ensures Reaches(s0, evs + [Finish] + [Yield], s6)
  {
    var s5 := World0(map[], [0, 2, 1], true, map[0 := TERMINATED, 1 := READY, 2 := READY], s4.entries);
    assert s4.etat[0 := TERMINATED] == s5.etat && WellFormed(s4);
    hide Reaches;
    Return(s0, evs, s4, s5);
    Start(s0, evs + [Finish], s5, s6);
  }

  lemma OneLeft(s0: World, evs: seq<Call>, s6: World)
    requires s6 == World0(map[], [2, 1, 0], true, map[0 := TERMINATED, 1 := READY, 2 := ACTIVABLE],
                          map[0 := 1, 1 := 0, 2 := 1])
    requires Reaches(s0, evs, s6)
    ensures exists t: World ::
              && Reaches(s0, evs + [Finish] + [Yield] + [Yield], t)
              && t.ring == [1, 2] && 2 in t.freed
              && WellFormed(t) && Step(t, Yield) == Crash
  {
    var s7 := World0(map[], [2, 1, 0], true, map[0 := TERMINATED, 1 := READY, 2 := TERMINATED], s6.entries);
    assert s6.etat[2 := TERMINATED] == s7.etat;
    hide Reaches;
    Return(s0, evs, s6, s7);
    LastOne(s0, evs + [Finish], s7);
  }

  lemma LastOne(s0: World, evs: seq<Call>, s7: World)
    requires s7 == World0(map[], [2, 1, 0], true, map[0 := TERMINATED, 1 := READY, 2 := TERMINATED],
                          map[0 := 1, 1 := 0, 2 := 1])
    requires Reaches(s0, evs, s7)
    ensures exists t: World ::
              && Reaches(s0, evs + [Yield] + [Yield], t)
              && t.ring == [1, 2] && 2 in t.freed
              && WellFormed(t) && Step(t, Yield) == Crash
  {
    var s8 := World0(map[], [1, 0, 2], true, map[0 := TERMINATED, 1 := ACTIVABLE, 2 := TERMINATED],
                     map[0 := 1, 1 := 1, 2 := 1]);
    Start(s0, evs, s7, s8);
    hide Leads, Reaches, YieldCtx;
    var t := TwoTicks(s8);
    Then(s0, evs + [Yield], s8, Yield, t);
  }

  lemma TwoTicks(s: World) returns (t: World)
    requires s == World0(map[], [1, 0, 2], true, map[0 := TERMINATED, 1 := ACTIVABLE, 2 := TERMINATED],
                         map[0 := 1, 1 := 1, 2 := 1])
    ensures Leads(s, Yield, t)
    ensures t.ring == [1, 2] && 2 in t.freed && WellFormed(t) && YieldCtx(t) == Crash
  {
    t := s.(ring := [1, 2], head := Some(1), freed := {0, 2});
    Unlinked(s, t);
    PastBoth(s);
    FreedNext(t);
    hide Walk, Unlink, Enter;
  }

  lemma PastBoth(s: World)
    requires WellFormed(s) && s.ring == [1, 0, 2] && s.freed == {}
    requires s.etat == map[0 := TERMINATED, 1 := ACTIVABLE, 2 := TERMINATED]
    ensures Walk(s, 1) == Found(3)
  {
    assert Walk(s, 3) == Found(3);
    assert Walk(s, 2) == Found(3);
  }

  lemma FreedNext(t: World)
    requires WellFormed(t) && t.running && t.ring == [1, 2] && 2 in t.freed
    ensures YieldCtx(t) == Crash
  {
  }

  lemma Unlinked(s: World, t: World)
    requires s == World0(map[], [1, 0, 2], true, map[0 := TERMINATED, 1 := ACTIVABLE, 2 := TERMINATED],
                         map[0 := 1, 1 := 1, 2 := 1])
    requires t == s.(ring := [1, 2], head := Some(1), freed := {0, 2})
    ensures WellFormed(s) && Unlink(s, 3) == t && Enter(t) == t
  {
    hide HeadFrom, Relink;
    assert s.ring[1..3] == [0, 2];
    OneRelinked(s.etat);
    HeadPushed(s);
    assert s.ring[3..] + [s.ring[0]] + Relink([0, 2], s.etat) == t.ring;
    BothReaped(s);
    hide Reaped;
  }

  lemma BothReaped(s: World)
    requires WellFormed(s) && s.ring == [1, 0, 2] && s.etat == map[0 := TERMINATED, 1 := ACTIVABLE, 2 := TERMINATED]
    ensures Reaped(s, 3) == {0, 2}
  {
    assert s.ring[1..3] == [0, 2];
    assert 0 in s.ring[1..3] && 2 in s.ring[1..3];
  }

  lemma OneRelinked(etat: map<nat, Etat>)
    requires etat == map[0 := TERMINATED, 1 := ACTIVABLE, 2 := TERMINATED]
    ensures Relink([0, 2], etat) == [2]
  {
    assert Relink([0, 2], etat) == [2] + Relink([0, 2][2..], etat);
  }

  lemma HeadPushed(s: World)
    requires WellFormed(s) && s.ring == [1, 0, 2] && s.etat == map[0 := TERMINATED, 1 := ACTIVABLE, 2 := TERMINATED]
    ensures IndexOf(s.ring, 0) == 1 && HeadFrom(s, 1, 3) == 1
  {
    assert HeadFrom(s, 3, 3) == 1;
    assert HeadFrom(s, 2, 3) == 1;
  }
}

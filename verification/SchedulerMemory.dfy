/** How the globals and structures of src/x86-64/examples/TP3.c stand for the ring and the blocked lists, and
    what its assignments to them mean: pointers followed, lists pushed and popped, nodes bypassed. */
module SchedulerMemory {
  import opened Collections
  import opened SchedulerSpec
  import opened SchedulerInvariant
  import opened SchedulerTheorems
  import opened Preemption
  import opened PreemptionTheorems

  function Top<C>(b: seq<C>): Option<C> {
    if b == [] then None else Some(b[0])
  }

  /** What comes after position `i` of a list. */
  function Below<C>(b: seq<C>, i: nat): Option<C>
    requires i < |b|
  {
    if i + 1 < |b| then Some(b[i + 1]) else None
  }

  /** The position after `i` on a ring. */
  function After(n: nat, i: nat): nat
    requires i < n
    ensures After(n, i) < n
  {
    if i + 1 == n then 0 else i + 1
  }

  // ---- Following `next` -------------------------------------------------------------------------

  /** Following `next` from r[0] goes through r and comes back. */
  predicate Cycle<C(==)>(r: seq<C>, next: map<C, C>) {
    forall i :: 0 <= i < |r| ==> r[i] in next && next[r[i]] == r[After(|r|, i)]
  }

  predicate Path<C(==)>(x: C, l: seq<C>, t: C, next: map<C, C>) {
    && x in next && next[x] == (if l == [] then t else l[0])
    && (l != [] ==> Path(l[0], l[1..], t, next))
  }

  lemma {:induction false} PathAt<C>(x: C, l: seq<C>, t: C, next: map<C, C>, i: nat)
    requires Path(x, l, t, next) && i <= |l|
    ensures var y := if i == 0 then x else l[i - 1];
            y in next && next[y] == if i == |l| then t else l[i]
  {
    if i > 0 {
      PathAt(l[0], l[1..], t, next, i - 1);
    }
  }

  /** What `next` holds at position `j` once the walk has passed the positions below `k`. */
  predicate Bypassed<C(==), S>(s: Sched<C, S>, k: nat, next: map<C, C>, j: nat)
    requires WellFormed(s) && 1 <= k <= |s.ring| && j < |s.ring|
  {
    && s.ring[j] in next
    && next[s.ring[j]] == if j + 1 < k && s.etat[s.ring[j + 1]] == TERMINATED
                          then s.ring[After(|s.ring|, j + 1)]
                          else s.ring[After(|s.ring|, j)]
  }

  predicate AllBypassed<C(==), S>(s: Sched<C, S>, k: nat, next: map<C, C>)
    requires WellFormed(s) && 1 <= k <= |s.ring|
  {
    forall j :: 0 <= j < |s.ring| ==> Bypassed(s, k, next, j)
  }

  lemma PathCons<C>(x: C, y: C, l: seq<C>, t: C, next: map<C, C>)
    requires x in next && next[x] == y && Path(y, l, t, next)
    ensures Path(x, [y] + l, t, next)
  {
  }

  /** What Relink does to the first one or two contexts of `w`. */
  lemma RelinkStep<C>(w: seq<C>, etat: map<C, Etat>)
    requires w != [] && forall c :: c in w ==> c in etat
    ensures etat[w[0]] != TERMINATED ==> Relink(w, etat) == [w[0]] + Relink(w[1..], etat)
    ensures etat[w[0]] == TERMINATED && |w| == 1 ==> Relink(w, etat) == []
    ensures etat[w[0]] == TERMINATED && |w| > 1 ==> Relink(w, etat) == [w[1]] + Relink(w[2..], etat)
  {
  }

  lemma SliceTails<C>(r: seq<C>, j: nat, k: nat)
    requires j < k <= |r|
    ensures r[j..k][0] == r[j] && r[j..k][1..] == r[j + 1..k]
    ensures j + 1 < k ==> r[j..k][1] == r[j + 1] && r[j..k][2..] == r[j + 2..k]
  {
  }

  lemma {:induction false} RelinkPath<C, S>(s: Sched<C, S>, k: nat, next: map<C, C>, j: nat)
    requires WellFormed(s) && 1 <= k <= |s.ring| && j < k && AllBypassed(s, k, next)
    ensures Path(s.ring[j], Relink(s.ring[j + 1..k], s.etat), s.ring[if k == |s.ring| then 0 else k], next)
    decreases k - j
  {
    var x := s.ring[j];
    var w := s.ring[j + 1..k];
    var t := s.ring[if k == |s.ring| then 0 else k];
    assert forall c :: c in w ==> c in s.ring && c in s.etat;
    assert Bypassed(s, k, next, j);
    assert x in next && next[x] == if j + 1 < k && s.etat[s.ring[j + 1]] == TERMINATED
                                   then s.ring[After(|s.ring|, j + 1)] else s.ring[After(|s.ring|, j)];
    hide WellFormed, AllBypassed, Relink, Path;
    if j + 1 == k {
      NoPath(x, w, s.etat, t, next);
    } else {
      SliceTails(s.ring, j + 1, k);
      RelinkStep(w, s.etat);
      if s.etat[w[0]] != TERMINATED {
        RelinkPath(s, k, next, j + 1);
        PathCons(x, w[0], Relink(w[1..], s.etat), t, next);
      } else if j + 2 == k {
        NoPath(x, [], s.etat, t, next);
      } else {
        RelinkPath(s, k, next, j + 2);
        PathCons(x, w[1], Relink(w[2..], s.etat), t, next);
      }
    }
  }

  lemma NoPath<C>(x: C, w: seq<C>, etat: map<C, Etat>, t: C, next: map<C, C>)
    requires w == [] && x in next && next[x] == t
    ensures Relink(w, etat) == [] && Path(x, [], t, next)
  {
  }

  /** The element of `a` after position `i`, or `x` after the last one. */
  function NextOf<C>(a: seq<C>, x: C, i: nat): C
    requires i < |a|
  {
    if i + 1 < |a| then a[i + 1] else x
  }

  /** A stretch that leads to `x`, and a path from `x` back to its start. */
  lemma ClosePath<C>(a: seq<C>, x: C, l: seq<C>, t: C, next: map<C, C>)
    requires forall i :: 0 <= i < |a| ==> a[i] in next && next[a[i]] == NextOf(a, x, i)
    requires Path(x, l, t, next) && t == NextOf([x] + a, x, 0)
    ensures Cycle(a + [x] + l, next)
  {
    var r := a + [x] + l;
    forall i | 0 <= i < |r| ensures r[i] in next && next[r[i]] == r[After(|r|, i)] {
      if i < |a| {
        assert next[a[i]] == NextOf(a, x, i);
      } else {
        PathAt(x, l, t, next, i - |a|);
      }
    }
  }

  /** The pointers left by the walk form a single cycle through the ring that Unlink describes. */
  lemma UnlinkCycle<C, S>(s: Sched<C, S>, k: nat, next: map<C, C>)
    requires WellFormed(s) && 1 <= k <= |s.ring| && AllBypassed(s, k, next)
    ensures Cycle(Unlink(s, k).ring, next)
  {
    var l := Relink(s.ring[1..k], s.etat);
    var t := s.ring[if k == |s.ring| then 0 else k];
    var a := s.ring[k..];
    RelinkPath(s, k, next, 0);
    forall i | 0 <= i < |a| ensures a[i] in next && next[a[i]] == NextOf(a, s.ring[0], i) {
      assert Bypassed(s, k, next, k + i);
    }
    hide WellFormed, AllBypassed, Relink, Path;
    ClosePath(a, s.ring[0], l, t, next);
  }

  /** One turn of the loop of yield that frees the context at position `i`. */
  lemma BypassOne<C, S>(s: Sched<C, S>, i: nat, next: map<C, C>)
    requires WellFormed(s) && 1 <= i < |s.ring| && AllBypassed(s, i, next)
    ensures s.ring[i - 1] in next && s.ring[i] in next && next[s.ring[i]] == s.ring[After(|s.ring|, i)]
    ensures s.etat[s.ring[i]] == TERMINATED ==> AllBypassed(s, i + 1, next[s.ring[i - 1] := next[s.ring[i]]])
    ensures s.etat[s.ring[i]] != TERMINATED ==> AllBypassed(s, i + 1, next)
  {
    assert Bypassed(s, i, next, i) && Bypassed(s, i, next, i - 1);
    var next' := if s.etat[s.ring[i]] == TERMINATED then next[s.ring[i - 1] := next[s.ring[i]]] else next;
    forall j {:trigger Bypassed(s, i + 1, next', j)} | 0 <= j < |s.ring| ensures Bypassed(s, i + 1, next', j) {
      assert Bypassed(s, i, next, j);
    }
  }

  // ---- What the memory stands for ---------------------------------------------------------------

  /** next_blocked leads from the first element of `b` through `b` to NULL. */
  predicate ListRep<C(==)>(b: seq<C>, nextBlocked: map<C, Option<C>>) {
    forall i :: 0 <= i < |b| ==> b[i] in nextBlocked && nextBlocked[b[i]] == Below(b, i)
  }

  predicate SemRep<C(==)>(val: int, first: Option<C>, nextBlocked: map<C, Option<C>>, q: Sem<C>) {
    val == q.val && first == Top(q.blocked) && ListRep(q.blocked, nextBlocked)
  }

  predicate SemsRep<C(==), S(==)>(val: map<S, int>, first: map<S, Option<C>>, nextBlocked: map<C, Option<C>>,
                                  sems: map<S, Sem<C>>)
  {
    forall m :: m in sems ==> m in val && m in first && SemRep(val[m], first[m], nextBlocked, sems[m])
  }

  function Inserted<C>(ring: seq<C>, p: nat, c: C): (r: seq<C>)
    requires p < |ring|
    ensures |r| == |ring| + 1
  {
    ring[..p + 1] + [c] + ring[p + 1..]
  }

  /** The element at position `i` and the one after it. */
  lemma InsertedAt<C>(ring: seq<C>, p: nat, c: C, i: nat)
    requires p < |ring| && i <= |ring|
    ensures var r := Inserted(ring, p, c);
            && r[i] == (if i == p + 1 then c else ring[if i <= p then i else i - 1])
            && r[After(|r|, i)] == (if i == p then c else ring[After(|ring|, if i <= p then i else i - 1)])
  {
  }

  /** Inserting `c` after position `p` of a cycle. */
  lemma InsertCycle<C>(ring: seq<C>, p: nat, c: C, next: map<C, C>)
    requires Distinct(ring) && c !in ring && p < |ring| && Cycle(ring, next)
    ensures ring[p] in next
    ensures Cycle(Inserted(ring, p, c), next[c := next[ring[p]]][ring[p] := c])
  {
    var r := Inserted(ring, p, c);
    var next' := next[c := next[ring[p]]][ring[p] := c];
    assert ring[p] in ring && next'[c] == ring[After(|ring|, p)];
    hide Inserted, After;
    forall i | 0 <= i < |r| ensures r[i] in next' && next'[r[i]] == r[After(|r|, i)] {
      InsertedAt(ring, p, c, i);
      if i != p && i != p + 1 {
        InsertAway(ring, p, c, next, if i < p then i else i - 1);
      }
    }
  }

  lemma InsertAway<C>(ring: seq<C>, p: nat, c: C, next: map<C, C>, j: nat)
    requires Distinct(ring) && c !in ring && p < |ring| && Cycle(ring, next) && j < |ring| && j != p
    ensures ring[j] in next && next[c := next[ring[p]]][ring[p] := c][ring[j]] == ring[After(|ring|, j)]
  {
  }

  lemma ListAvoids<C>(b: seq<C>, nextBlocked: map<C, Option<C>>, c: C, p: Option<C>)
    requires ListRep(b, nextBlocked) && c !in b
    ensures ListRep(b, nextBlocked[c := p])
  {
  }

  lemma CreateShape<C, S>(s: Sched<C, S>, c: C)
    requires Inv(s) && WellFormed(s) && Callable(s, Create(c))
    ensures c !in s.freed && (forall m :: m in s.sems ==> c !in s.sems[m].blocked)
    ensures var t := CreateCtx(s, c);
            && Inv(t) && WellFormed(t)
            && t.sems == s.sems && t.etat == s.etat[c := READY] && t.freed == s.freed && t.running == s.running
  {
    StepKeeps(s, Create(c));
  }

  lemma CreateCycle<C, S>(s: Sched<C, S>, c: C, next: map<C, C>)
    requires WellFormed(s) && c !in s.etat && Cycle(s.ring, next)
    ensures var t := CreateCtx(s, c);
            && (s.running ==> s.ring != [] && t.ring != [] && t.ring[0] == s.ring[0])
            && (s.head == None ==> t.head == Some(c) && Cycle(t.ring, next[c := c]))
            && (s.head != None ==>
                  t.head == s.head && s.head.value in next
                  && Cycle(t.ring, next[c := next[s.head.value]][s.head.value := c]))
  {
    if s.ring != [] {
      InsertCycle(s.ring, IndexOf(s.ring, s.head.value), c, next);
      hide Cycle;
    }
  }

  lemma CreatePlan<C, S>(val: map<S, int>, first: map<S, Option<C>>, nextBlocked: map<C, Option<C>>, s: Sched<C, S>,
                         c: C, next: map<C, C>) returns (t: Sched<C, S>)
    requires Inv(s) && WellFormed(s) && Callable(s, Create(c)) && Cycle(s.ring, next)
    requires SemsRep(val, first, nextBlocked, s.sems)
    ensures SemsRep(val, first, nextBlocked[c := None], s.sems)
    ensures t == CreateCtx(s, c) && Inv(t) && WellFormed(t)
    ensures t.sems == s.sems && t.etat == s.etat[c := READY] && t.freed == s.freed && c !in s.freed
    ensures t.running == s.running && (s.running ==> s.ring != [] && t.ring != [] && t.ring[0] == s.ring[0])
    ensures s.head == None ==> t.head == Some(c) && Cycle(t.ring, next[c := c])
    ensures s.head != None ==>
              t.head == s.head && s.head.value in next
              && Cycle(t.ring, next[c := next[s.head.value]][s.head.value := c])
  {
    CreateShape(s, c);
    CreateCycle(s, c, next);
    NewOnNoList(val, first, nextBlocked, s, c);
    t := CreateCtx(s, c);
    hide Inv, SemsRep, Cycle, CreateCtx, WellFormed;
  }

  lemma NewOnNoList<C, S>(val: map<S, int>, first: map<S, Option<C>>, nextBlocked: map<C, Option<C>>, s: Sched<C, S>,
                          c: C)
    requires SemsRep(val, first, nextBlocked, s.sems) && (forall m :: m in s.sems ==> c !in s.sems[m].blocked)
    ensures SemsRep(val, first, nextBlocked[c := None], s.sems)
  {
  }

  lemma InitRep<C, S>(val: map<S, int>, first: map<S, Option<C>>, nextBlocked: map<C, Option<C>>, s: Sched<C, S>, m: S,
                      v: nat)
    requires v < 0x1_0000_0000 && SemsRep(val, first, nextBlocked, s.sems)
    ensures SemsRep(val[m := AsInt32(v)], first[m := None], nextBlocked, InitSem(s, m, v).sems)
  {
  }

  lemma InitPlan<C, S>(val: map<S, int>, first: map<S, Option<C>>, nextBlocked: map<C, Option<C>>, s: Sched<C, S>, m: S,
                       v: nat) returns (t: Sched<C, S>)
    requires Inv(s) && WellFormed(s) && v < 0x1_0000_0000 && SemsRep(val, first, nextBlocked, s.sems)
    ensures t == InitSem(s, m, v) && WellFormed(t)
    ensures t.ring == s.ring && t.head == s.head && t.running == s.running && t.freed == s.freed && t.etat == s.etat
    ensures SemsRep(val[m := AsInt32(v)], first[m := None], nextBlocked, t.sems)
    ensures Inv(t) <==> v < 0x8000_0000 && (m in s.sems ==> s.sems[m].blocked == [])
  {
    t := InitSem(s, m, v);
    InitRep(val, first, nextBlocked, s, m, v);
    SemInitExact(s, m, v);
    hide Inv, SemsRep;
  }

  /** What switch_to_ctx makes of the state: before the first switch it is only called with ctx_ring. */
  function Switched<C, S>(s: Sched<C, S>, ctx: C): Outcome<Sched<C, S>>
    requires WellFormed(s)
  {
    if s.running then SwitchCtx(s, ctx)
    else if s.ring != [] && s.ring[0] == ctx then Go(Enter(s))
    else Crash
  }

  lemma SwitchPlan<C, S>(s: Sched<C, S>, ctx: C, next: map<C, C>)
    requires Inv(s) && WellFormed(s) && ctx in s.etat && Cycle(s.ring, next) && (!s.running ==> s.head == Some(ctx))
    ensures Switched(s, ctx) == Crash <==> ctx in s.freed
    ensures ctx !in s.freed ==>
              && Switched(s, ctx).Go?
              && var u := Switched(s, ctx).s;
                && Inv(u) && WellFormed(u) && u.ring != [] && u.ring[0] == ctx && u.running
                && u.sems == s.sems && u.freed == s.freed && u.head == s.head && Cycle(u.ring, next)
                && u.etat == (if s.etat[ctx] == READY then s.etat[ctx := ACTIVABLE] else s.etat)
  {
    if s.running {
      assert ctx !in s.freed ==> ctx in s.ring;
      if ctx !in s.freed {
        TurnInv(s, ctx);
        TurnCycle(s, ctx, next);
      }
    } else {
      FirstYield(s);
      FirstSwitch(s, ctx);
    }
    hide Inv, WellFormed, Cycle, SwitchCtx;
  }

  lemma CycleRotated<C>(r: seq<C>, i: nat, next: map<C, C>)
    requires Cycle(r, next) && i <= |r|
    ensures Cycle(r[i..] + r[..i], next)
  {
    assert r == r[..i] + r[i..];
    hide Cycle;
    CycleTurn(r[..i], r[i..], next);
  }

  lemma TurnCycle<C, S>(s: Sched<C, S>, t: C, next: map<C, C>)
    requires WellFormed(s) && t in s.ring && t !in s.freed && Cycle(s.ring, next)
    ensures SwitchCtx(s, t).Go? && Cycle(SwitchCtx(s, t).s.ring, next) && SwitchCtx(s, t).s.head == s.head
  {
    hide Cycle, IndexOf, WellFormed;
    CycleRotated(s.ring, IndexOf(s.ring, t), next);
  }

  lemma FirstSwitch<C, S>(s: Sched<C, S>, ctx: C)
    requires Inv(s) && WellFormed(s) && !s.running && s.head == Some(ctx)
    ensures s.ring != [] && s.ring[0] == ctx && ctx in s.etat && ctx !in s.freed
    ensures Enter(s).ring == s.ring && Enter(s).sems == s.sems && Enter(s).freed == s.freed && Enter(s).head == s.head
    ensures Enter(s).running && Enter(s).etat == (if s.etat[ctx] == READY then s.etat[ctx := ACTIVABLE] else s.etat)
  {
    hide ListsInv, CountsInv;
  }

  /** Pushing a context that is on no list. */
  lemma PushRep<C, S>(val: map<S, int>, first: map<S, Option<C>>, nextBlocked: map<C, Option<C>>, s: Sched<C, S>, m: S)
    requires Inv(s) && s.running && s.etat[s.ring[0]] != WAITING && m in s.sems && s.sems[m].val < 1
    requires SemsRep(val, first, nextBlocked, s.sems)
    ensures m in val && m in first && SemDown(s, m).Go?
    ensures SemsRep(val[m := val[m] - 1], first[m := Some(s.ring[0])], nextBlocked[s.ring[0] := first[m]],
                    SemDown(s, m).s.sems)
  {
    var c := s.ring[0];
    var sems := SemDown(s, m).s.sems;
    var nextBlocked' := nextBlocked[c := first[m]];
    forall x | x in s.sems ensures ListRep(s.sems[x].blocked, nextBlocked') {
      ListAvoids(s.sems[x].blocked, nextBlocked, c, first[m]);
    }
    assert first[m] == Top(s.sems[m].blocked) && sems[m].blocked == [c] + s.sems[m].blocked;
    PushedList(s.sems[m].blocked, c, nextBlocked');
    hide Inv, ListRep, Top;
  }

  lemma PushedList<C>(b: seq<C>, c: C, nextBlocked: map<C, Option<C>>)
    requires ListRep(b, nextBlocked) && c in nextBlocked && nextBlocked[c] == Top(b)
    ensures ListRep([c] + b, nextBlocked)
  {
    var b' := [c] + b;
    forall i | 0 <= i < |b'| ensures b'[i] in nextBlocked && nextBlocked[b'[i]] == Below(b', i) {
      if i > 0 {
        assert b'[i] == b[i - 1] && Below(b', i) == Below(b, i - 1);
      }
    }
  }

  lemma DownShape<C, S>(s: Sched<C, S>, m: S)
    requires Inv(s) && WellFormed(s) && Callable(s, Down(m)) && !StaleCall(s, Down(m))
    ensures SemDown(s, m).Crash? <==> s.sems[m].val < 1 && !s.running
    ensures SemDown(s, m).Go? ==>
              var t := SemDown(s, m).s;
              && Inv(t) && WellFormed(t)
              && t.ring == s.ring && t.head == s.head && t.running == s.running && t.freed == s.freed
              && t.etat.Keys == s.etat.Keys
              && (s.sems[m].val >= 1 ==> t.etat == s.etat)
              && (s.sems[m].val < 1 ==> s.ring != [] && t.etat == s.etat[s.ring[0] := WAITING])
  {
    if SemDown(s, m).Go? {
      StepKeeps(s, Down(m));
      hide Inv, Callable;
    }
  }

  /** A token taken without blocking. */
  lemma TakeRep<C, S>(val: map<S, int>, first: map<S, Option<C>>, nextBlocked: map<C, Option<C>>, s: Sched<C, S>, m: S)
    requires WellFormed(s) && m in s.sems && s.sems[m].val >= 1 && SemsRep(val, first, nextBlocked, s.sems)
    ensures m in val && SemDown(s, m).Go?
    ensures SemsRep(val[m := val[m] - 1], first, nextBlocked, SemDown(s, m).s.sems)
  {
  }

  lemma DownPlan<C, S>(val: map<S, int>, first: map<S, Option<C>>, nextBlocked: map<C, Option<C>>, s: Sched<C, S>, m: S)
      returns (t: Sched<C, S>)
    requires Inv(s) && WellFormed(s) && Callable(s, Down(m)) && !StaleCall(s, Down(m))
    requires SemsRep(val, first, nextBlocked, s.sems)
    ensures m in s.sems && m in val && m in first && val[m] == s.sems[m].val
    ensures SemDown(s, m).Crash? <==> val[m] < 1 && !s.running
    ensures SemDown(s, m).Go? ==>
              && t == SemDown(s, m).s && Inv(t) && WellFormed(t)
              && t.ring == s.ring && t.head == s.head && t.running == s.running && t.freed == s.freed
              && t.etat.Keys == s.etat.Keys
    ensures val[m] >= 1 ==> t.etat == s.etat && SemsRep(val[m := val[m] - 1], first, nextBlocked, t.sems)
    ensures val[m] < 1 && s.running ==>
              && s.ring != [] && t.etat == s.etat[s.ring[0] := WAITING]
              && SemsRep(val[m := val[m] - 1], first[m := Some(s.ring[0])], nextBlocked[s.ring[0] := first[m]], t.sems)
  {
    assert SemRep(val[m], first[m], nextBlocked, s.sems[m]);
    DownShape(s, m);
    t := s;
    if SemDown(s, m).Go? {
      t := SemDown(s, m).s;
      if val[m] < 1 {
        PushRep(val, first, nextBlocked, s, m);
      } else {
        TakeRep(val, first, nextBlocked, s, m);
      }
      hide Inv, SemDown, SemsRep, WellFormed;
    }
  }

  /** Popping the first element of a list. */
  lemma PopRep<C, S>(val: map<S, int>, first: map<S, Option<C>>, nextBlocked: map<C, Option<C>>, s: Sched<C, S>, m: S)
    requires WellFormed(s) && m in s.sems && s.sems[m].val < 0
    requires SemsRep(val, first, nextBlocked, s.sems)
    ensures m in first && (first[m].None? <==> SemUp(s, m).Crash?)
    ensures first[m].Some? ==>
              && SemUp(s, m).Go? && s.sems[m].blocked != [] && first[m].value == s.sems[m].blocked[0]
              && first[m].value in nextBlocked
              && SemsRep(val, first[m := nextBlocked[first[m].value]], nextBlocked, SemUp(s, m).s.sems)
  {
  }

  lemma UpShape<C, S>(s: Sched<C, S>, m: S)
    requires Inv(s) && WellFormed(s) && Callable(s, Up(m)) && SemUp(s, m).Go?
    ensures var t := SemUp(s, m).s;
            && Inv(t) && WellFormed(t)
            && t.ring == s.ring && t.head == s.head && t.running == s.running && t.freed == s.freed
            && t.etat.Keys == s.etat.Keys
            && (s.sems[m].val >= 0 ==> t.etat == s.etat)
            && (s.sems[m].val < 0 ==>
                  s.sems[m].blocked != [] && t.etat == s.etat[s.sems[m].blocked[0] := ACTIVABLE])
  {
    StepKeeps(s, Up(m));
    UpKeys(s, m);
    hide Inv, Callable;
  }

  /** A token given back while nobody waits. */
  lemma GiveRep<C, S>(val: map<S, int>, first: map<S, Option<C>>, nextBlocked: map<C, Option<C>>, s: Sched<C, S>, m: S)
    requires WellFormed(s) && m in s.sems && s.sems[m].val >= 0 && SemsRep(val, first, nextBlocked, s.sems)
    ensures m in val && SemUp(s, m).Go?
    ensures SemsRep(val[m := val[m] + 1], first, nextBlocked, SemUp(s, m).s.sems)
  {
  }

  lemma UpPlan<C, S>(val: map<S, int>, first: map<S, Option<C>>, nextBlocked: map<C, Option<C>>, s: Sched<C, S>, m: S)
      returns (t: Sched<C, S>)
    requires Inv(s) && WellFormed(s) && Callable(s, Up(m)) && SemsRep(val, first, nextBlocked, s.sems)
    ensures m in s.sems && m in val && m in first && val[m] == s.sems[m].val
    ensures SemUp(s, m).Crash? <==> val[m] < 0 && first[m].None?
    ensures SemUp(s, m).Go? ==>
              && t == SemUp(s, m).s && Inv(t) && WellFormed(t)
              && t.ring == s.ring && t.head == s.head && t.running == s.running && t.freed == s.freed
              && t.etat.Keys == s.etat.Keys
    ensures val[m] >= 0 ==> t.etat == s.etat && SemsRep(val[m := val[m] + 1], first, nextBlocked, t.sems)
    ensures val[m] < 0 && first[m].Some? ==>
              && first[m].value in nextBlocked && t.etat == s.etat[first[m].value := ACTIVABLE]
              && SemsRep(val, first[m := nextBlocked[first[m].value]], nextBlocked, t.sems)
  {
    assert SemRep(val[m], first[m], nextBlocked, s.sems[m]);
    if val[m] < 0 {
      PopRep(val, first, nextBlocked, s, m);
    } else {
      GiveRep(val, first, nextBlocked, s, m);
    }
    t := s;
    if SemUp(s, m).Go? {
      UpShape(s, m);
      t := SemUp(s, m).s;
    }
    hide Inv, SemUp, SemsRep, WellFormed;
  }

  lemma UpKeys<C, S>(s: Sched<C, S>, m: S)
    requires Inv(s) && m in s.sems && SemUp(s, m).Go?
    ensures SemUp(s, m).s.etat.Keys == s.etat.Keys
  {
  }

  // ---- The loop of yield ------------------------------------------------------------------------

  /** The locals, ctx_ring, `next` and the allocator when the loop is about to test the context at
      position `i` of the ring that `s` describes. */
  predicate Walking<C(==), S>(s: Sched<C, S>, i: nat, target: C, precedent: C, ctxRing: Option<C>,
                              next: map<C, C>, live: set<C>)
    requires WellFormed(s) && s.running && 1 <= i <= |s.ring|
  {
    && target == s.ring[if i == |s.ring| then 0 else i] && precedent == s.ring[i - 1]
    && Walk(s, i) == Walk(s, 1)
    && ctxRing == Some(HeadAfter(s, i))
    && AllBypassed(s, i, next)
    && live == s.etat.Keys - (s.freed + Reaped(s, i))
  }

  function HeadAfter<C, S>(s: Sched<C, S>, i: nat): C
    requires WellFormed(s) && s.ring != [] && 1 <= i <= |s.ring|
  {
    var p := IndexOf(s.ring, s.head.value);
    if 1 <= p < i then HeadFrom(s, p, i) else s.head.value
  }

  lemma WalkStart<C, S>(s: Sched<C, S>, ctxRing: Option<C>, next: map<C, C>, live: set<C>)
    requires Inv(s) && WellFormed(s) && s.running && ctxRing == s.head && Cycle(s.ring, next)
    requires live == s.etat.Keys - s.freed
    ensures s.ring != [] && s.ring[0] in next && next[s.ring[0]] in s.etat
    ensures Walking(s, 1, next[s.ring[0]], s.ring[0], ctxRing, next, live)
  {
  }

  lemma {:induction false} HeadMoves<C, S>(s: Sched<C, S>, p: nat, i: nat)
    requires WellFormed(s) && s.running && p <= i < |s.ring| && Distinct(s.ring)
    ensures HeadFrom(s, p, i + 1) ==
            if HeadFrom(s, p, i) == s.ring[i] && s.etat[s.ring[i]] == TERMINATED
            then s.ring[After(|s.ring|, i)] else HeadFrom(s, p, i)
    decreases i - p
  {
    if p < i && s.etat[s.ring[p]] == TERMINATED {
      HeadMoves(s, p + 1, i);
    }
  }

  lemma ReapOne<C, S>(s: Sched<C, S>, i: nat)
    requires WellFormed(s) && 1 <= i < |s.ring|
    ensures Reaped(s, i + 1) ==
            if s.etat[s.ring[i]] == TERMINATED then Reaped(s, i) + {s.ring[i]} else Reaped(s, i)
  {
  }

  lemma HeadTurn<C, S>(s: Sched<C, S>, i: nat)
    requires WellFormed(s) && s.running && 1 <= i < |s.ring|
    ensures HeadAfter(s, i + 1) ==
            if HeadAfter(s, i) == s.ring[i] && s.etat[s.ring[i]] == TERMINATED
            then s.ring[After(|s.ring|, i)] else HeadAfter(s, i)
  {
    var p := IndexOf(s.ring, s.head.value);
    if 1 <= p <= i {
      HeadMoves(s, p, i);
    }
  }

  /** One turn of the loop, from a context that is TERMINATED or WAITING. */
  lemma WalkTurn<C, S>(s: Sched<C, S>, i: nat, target: C, precedent: C, ctxRing: Option<C>, next: map<C, C>,
                       live: set<C>)
    requires Inv(s) && WellFormed(s) && s.running && 1 <= i <= |s.ring| && target in s.etat
    requires Walking(s, i, target, precedent, ctxRing, next, live) && !Runnable(s.etat[target])
    ensures target == s.ring[0] ==> YieldCtx(s) == Exit
    ensures target != s.ring[0] && target !in live ==> YieldCtx(s) == Crash && s.etat[target] == TERMINATED
    ensures target != s.ring[0] && target in live ==> i < |s.ring| && target in next && precedent != target
    ensures target != s.ring[0] && target in live && s.etat[target] != TERMINATED ==>
              Walking(s, i + 1, next[target], target, ctxRing, next, live)
    ensures target != s.ring[0] && target in live && s.etat[target] == TERMINATED ==>
              Walking(s, i + 1, next[target], target, if ctxRing == Some(target) then Some(next[target]) else ctxRing,
                      next[precedent := next[target]], live - {target})
  {
    if i < |s.ring| {
      BypassOne(s, i, next);
      HeadTurn(s, i);
      ReapOne(s, i);
      WalkLive(s, i);
    }
  }

  lemma WalkLive<C, S>(s: Sched<C, S>, i: nat)
    requires Inv(s) && WellFormed(s) && s.running && 1 <= i < |s.ring|
    ensures s.ring[i] !in Reaped(s, i) && s.ring[i] != s.ring[0]
    ensures s.ring[i] in s.freed ==> s.etat[s.ring[i]] == TERMINATED
  {
  }

  /** A cycle read from another place. */
  lemma CycleTurn<C>(a: seq<C>, b: seq<C>, next: map<C, C>)
    requires Cycle(a + b, next)
    ensures Cycle(b + a, next)
  {
    forall i | 0 <= i < |b + a| ensures (b + a)[i] in next && next[(b + a)[i]] == (b + a)[After(|b + a|, i)] {
      CycleAt(a, b, next, i);
    }
  }

  lemma CycleAt<C>(a: seq<C>, b: seq<C>, next: map<C, C>, i: nat)
    requires Cycle(a + b, next) && i < |b + a|
    ensures (b + a)[i] in next && next[(b + a)[i]] == (b + a)[After(|b + a|, i)]
  {
    var j := if i < |b| then |a| + i else i - |b|;
    assert (b + a)[i] == (a + b)[j];
    assert next[(a + b)[j]] == (a + b)[After(|a + b|, j)];
    hide Cycle;
    var i', j' := After(|b + a|, i), After(|a + b|, j);
    assert j' == if i' < |b| then |a| + i' else i' - |b|;
    assert (b + a)[i'] == (a + b)[j'];
  }

  /** The loop stops on a runnable context. */
  lemma WalkDone<C, S>(s: Sched<C, S>, i: nat, target: C, precedent: C, ctxRing: Option<C>, next: map<C, C>,
                       live: set<C>) returns (t: Sched<C, S>)
    requires Inv(s) && WellFormed(s) && s.running && 1 <= i <= |s.ring| && target in s.etat
    requires Walking(s, i, target, precedent, ctxRing, next, live) && Runnable(s.etat[target])
    ensures Walk(s, 1) == Found(i) && t == Chosen(s, i) && target == At(s, i)
    ensures t.ring != [] && t.ring[0] == s.ring[0] && ctxRing == t.head && Cycle(t.ring, next)
    ensures t.etat == s.etat && t.sems == s.sems && t.running && live == t.etat.Keys - t.freed
  {
    WalkPasses(s, 1);
    assert Walk(s, 1) == Found(i) by { FreedTerminated(s); }
    UnlinkCycle(s, i, next);
    t := Chosen(s, i);
    ChosenTurned(s, i, next);
    UnlinkKnown(s, i);
  }

  lemma ChosenTurned<C, S>(s: Sched<C, S>, k: nat, next: map<C, C>)
    requires WellFormed(s) && s.ring != [] && 1 <= k <= |s.ring| && Cycle(Unlink(s, k).ring, next)
    ensures Cycle(Chosen(s, k).ring, next)
  {
    var a := [s.ring[0]] + Relink(s.ring[1..k], s.etat);
    assert Unlink(s, k).ring == s.ring[k..] + a && Chosen(s, k).ring == a + s.ring[k..];
    hide Cycle;
    CycleTurn(s.ring[k..], a, next);
  }

  lemma FreedTerminated<C, S>(s: Sched<C, S>)
    requires Inv(s)
    ensures forall c :: c in s.freed ==> c in s.etat && s.etat[c] == TERMINATED
  {
  }

  lemma UnlinkKnown<C, S>(s: Sched<C, S>, i: nat)
    requires WellFormed(s) && s.running && 1 <= i <= |s.ring| && Inv(s)
    requires forall j :: 1 <= j < |s.ring| && j <= i ==> s.ring[j] !in s.freed
    ensures WellFormed(Unlink(s, i)) && Unlink(s, i).head == Some(HeadAfter(s, i))
  {
    UnlinkRing(s, i);
    UnlinkHead(s, i);
  }

  lemma Stays<C, S>(s: Sched<C, S>, i: nat, target: C, precedent: C, ctxRing: Option<C>, next: map<C, C>, live: set<C>)
    requires WellFormed(s) && s.running && 1 <= i <= |s.ring|
    requires Walking(s, i, target, precedent, ctxRing, next, live)
    ensures target in s.etat
  {
  }

  lemma FirstYield<C, S>(s: Sched<C, S>)
    requires Inv(s) && WellFormed(s) && !s.running
    ensures s.head == None <==> s.ring == []
    ensures s.head == None ==> YieldCtx(s) == Crash
    ensures s.head != None ==>
              s.ring != [] && s.head.value == s.ring[0] && YieldCtx(s) == Go(Enter(s))
              && Inv(Enter(s)) && WellFormed(Enter(s))
  {
  }

  lemma FinishPlan<C, S>(s: Sched<C, S>) returns (t: Sched<C, S>)
    requires Inv(s) && WellFormed(s) && Callable(s, Event.Finish)
    ensures s.running && s.ring != [] && t == FinishCtx(s) && WellFormed(t)
    ensures Inv(t) <==> s.etat[s.ring[0]] != WAITING
    ensures t.ring == s.ring && t.head == s.head && t.running && t.freed == s.freed && t.sems == s.sems
    ensures t.etat == s.etat[s.ring[0] := TERMINATED] && t.etat.Keys == s.etat.Keys
  {
    StepExact(s, Event.Finish);
    t := FinishCtx(s);
  }
}

/** The joint invariant of the ring and of the semaphores' blocked lists, the one kind of call that breaks it,
    and its proof over every run that starts from semaphores given a value below 2^31 and has no tick inside a
    yield. */
module SchedulerInvariant {
  import opened Collections
  import opened SchedulerSpec

  // ---- The invariant ----------------------------------------------------------------------------

  predicate RingInv<C(==), S>(s: Sched<C, S>) {
    && WellFormed(s)
    && (forall c :: c in s.etat ==> c in s.ring || c in s.freed)
    && (forall c :: c in s.freed ==> c in s.etat && s.etat[c] == TERMINATED)
    && (forall c :: c in s.etat ==> s.entries[c] == if s.etat[c] == READY then 0 else 1)
    && (s.head.Some? ==> s.head.value !in s.freed)
    && (s.running ==> s.ring[0] !in s.freed && s.etat[s.ring[0]] != READY)
    && (!s.running ==> s.freed == {} && (forall c :: c in s.etat ==> s.etat[c] == READY))
    && (!s.running && s.ring != [] ==> s.head.value == s.ring[0])
  }

  /** The blocked lists have no repetition, do not overlap, and hold exactly the WAITING contexts. */
  predicate ListsInv<C(==), S(==)>(s: Sched<C, S>) {
    && (forall m :: m in s.sems ==> Distinct(s.sems[m].blocked))
    && (forall m, c :: m in s.sems && c in s.sems[m].blocked ==> c in s.etat && s.etat[c] == WAITING)
    && (forall m, m' :: m in s.sems && m' in s.sems && m != m' ==>
          forall c :: c in s.sems[m].blocked ==> c !in s.sems[m'].blocked)
    && (forall c :: c in s.etat && s.etat[c] == WAITING ==> OnList(s.sems, c))
  }

  predicate OnList<C(==), S(==)>(sems: map<S, Sem<C>>, c: C) {
    exists m :: m in sems && c in sems[m].blocked
  }

  /** What the counter says: tokens taken and given while none has been missing, then calls blocked. A
      wake-up shortens the list without touching the counter. */
  predicate CountInv<C>(q: Sem<C>) {
    && q.initial >= 0
    && q.val == q.initial + q.given - q.taken - q.parked
    && |q.blocked| == q.parked - q.woken
    && (q.val >= 0 ==> q.parked == 0)
    && (q.val < 0 ==> q.val + q.parked == 0)
  }

  predicate CountsInv<C, S(==)>(sems: map<S, Sem<C>>) {
    forall m :: m in sems ==> CountInv(sems[m])
  }

  predicate Inv<C(==), S(==)>(s: Sched<C, S>) {
    RingInv(s) && ListsInv(s) && CountsInv(s.sems)
  }

  // ---- Facts about the walk ---------------------------------------------------------------------

  lemma DistinctConcat<T>(a: seq<T>, b: seq<T>)
    requires Distinct(a) && Distinct(b) && (forall x :: x in a ==> x !in b)
    ensures Distinct(a + b)
  {
    forall i, j | 0 <= i < j < |a + b| ensures (a + b)[i] != (a + b)[j] {
      if i < |a| <= j {
        assert (a + b)[i] in a && (a + b)[j] in b;
      }
    }
  }

  lemma DistinctParts<T>(s: seq<T>, k: nat)
    requires Distinct(s) && k <= |s|
    ensures Distinct(s[..k]) && Distinct(s[k..])
    ensures forall x :: x in s[..k] ==> x !in s[k..]
    ensures forall x :: x in s <==> x in s[..k] || x in s[k..]
  {
  }

  /** Relinking drops TERMINATED contexts only and reorders nothing. */
  lemma {:induction false} RelinkKeeps<C>(w: seq<C>, etat: map<C, Etat>)
    requires forall c :: c in w ==> c in etat
    requires Distinct(w)
    ensures forall c :: c in Relink(w, etat) ==> c in w
    ensures forall c :: c in w && etat[c] != TERMINATED ==> c in Relink(w, etat)
    ensures Distinct(Relink(w, etat))
  {
    if w == [] {
    } else if etat[w[0]] != TERMINATED {
      RelinkKeeps(w[1..], etat);
      DistinctParts(w, 1);
      DistinctConcat([w[0]], Relink(w[1..], etat));
    } else if |w| >= 2 {
      RelinkKeeps(w[2..], etat);
      DistinctParts(w, 2);
      assert w[1] in w[..2];
      DistinctConcat([w[1]], Relink(w[2..], etat));
    }
  }

  /** Every context the walk went past is live and TERMINATED or WAITING; the one found is runnable. */
  lemma {:induction false} WalkPasses<C, S>(s: Sched<C, S>, i: nat)
    requires WellFormed(s) && 1 <= i <= |s.ring|
    ensures Walk(s, i).Found? ==>
              && i <= Walk(s, i).k <= |s.ring|
              && (forall j :: i <= j < Walk(s, i).k ==> !Runnable(s.etat[s.ring[j]]) && s.ring[j] !in s.freed)
              && (Walk(s, i).k < |s.ring| ==>
                    Runnable(s.etat[s.ring[Walk(s, i).k]]) && s.ring[Walk(s, i).k] !in s.freed)
              && (Walk(s, i).k == |s.ring| ==> Runnable(s.etat[s.ring[0]]))
    decreases |s.ring| - i
  {
    if i < |s.ring| {
      WalkPasses(s, i + 1);
    }
  }

  /** ctx_ring ends on a context that is still linked and not freed. */
  lemma {:induction false} HeadLands<C, S>(s: Sched<C, S>, p: nat, k: nat)
    requires WellFormed(s) && s.ring != [] && 1 <= p <= k <= |s.ring|
    requires forall j :: p <= j < |s.ring| && j <= k ==> s.ring[j] !in s.freed
    requires s.ring[0] !in s.freed
    ensures var h := HeadFrom(s, p, k);
            && h !in s.freed && h in s.ring
            && (h in s.ring[1..k] ==> s.etat[h] != TERMINATED)
    decreases k - p
  {
    if p < k && s.etat[s.ring[p]] == TERMINATED {
      HeadLands(s, p + 1, k);
    }
  }

  // ---- Preservation -----------------------------------------------------------------------------

  lemma BootInv<C, S>(initial: map<S, nat>)
    requires forall m :: m in initial ==> initial[m] < 0x8000_0000
    ensures Inv(Boot<C, S>(initial))
  {
  }

  /** A context inserted into a ring. */
  lemma InsertDistinct<C>(r: seq<C>, p: nat, c: C)
    requires Distinct(r) && c !in r && p <= |r|
    ensures Distinct(r[..p] + [c] + r[p..])
    ensures forall x :: x in r[..p] + [c] + r[p..] <==> x == c || x in r
  {
  }

  /** A new context joins a ring without changing its first element. */
  lemma JoinRing<C, S>(s: Sched<C, S>, c: C, t: Sched<C, S>)
    requires RingInv(s) && c !in s.etat
    requires t == s.(etat := s.etat[c := READY], entries := s.entries[c := 0], ring := t.ring, head := t.head)
    requires Distinct(t.ring) && (forall x :: x in t.ring <==> x == c || x in s.ring)
    requires if s.ring == [] then t.head == Some(c) else t.head == s.head && t.ring[0] == s.ring[0]
    ensures RingInv(t)
  {
    assert c in t.ring;
    if s.ring == [] && t.ring != [] {
      assert t.ring[0] in t.ring;
    }
  }

  lemma CreateRing<C, S>(s: Sched<C, S>, c: C)
    requires RingInv(s) && c !in s.etat
    ensures RingInv(CreateCtx(s, c))
  {
    if s.ring != [] {
      InsertDistinct(s.ring, IndexOf(s.ring, s.head.value) + 1, c);
    }
    JoinRing(s, c, CreateCtx(s, c));
  }

  /** Two states that agree on the semaphores' lists and on who is WAITING. */
  lemma SameLists<C, S>(s: Sched<C, S>, t: Sched<C, S>)
    requires ListsInv(s) && s.sems.Keys == t.sems.Keys
    requires forall m :: m in s.sems ==> s.sems[m].blocked == t.sems[m].blocked
    requires forall c :: (c in s.etat && s.etat[c] == WAITING) <==> (c in t.etat && t.etat[c] == WAITING)
    ensures ListsInv(t)
  {
    hide OnList;
    forall c | c in t.etat && t.etat[c] == WAITING ensures OnList(t.sems, c) {
      SameOnList(s, t, c);
    }
  }

  lemma SameOnList<C, S>(s: Sched<C, S>, t: Sched<C, S>, c: C)
    requires s.sems.Keys == t.sems.Keys && OnList(s.sems, c)
    requires forall m :: m in s.sems ==> s.sems[m].blocked == t.sems[m].blocked
    ensures OnList(t.sems, c)
  {
    var m :| m in s.sems && c in s.sems[m].blocked;
    assert m in t.sems && c in t.sems[m].blocked;
  }

  /** The ring after an unlink: three pieces of the old one, short of some of the reaped contexts. */
  lemma UnlinkRing<C, S>(s: Sched<C, S>, k: nat)
    requires WellFormed(s) && s.ring != [] && 1 <= k <= |s.ring|
    ensures var t := Unlink(s, k);
            && t.ring != []
            && t.ring[0] == (if k < |s.ring| then s.ring[k] else s.ring[0])
            && Distinct(t.ring)
            && (forall c :: c in t.ring ==> c in s.ring)
            && (forall c :: c in s.ring && c !in Reaped(s, k) ==> c in t.ring)
            && t.ring[0] !in Reaped(s, k) && s.ring[0] !in Reaped(s, k)
  {
    var w := s.ring[1..k];
    var r := Relink(w, s.etat);
    DistinctParts(s.ring, k);
    DistinctParts(s.ring[..k], 1);
    assert s.ring[..k][1..] == w;
    RelinkKeeps(w, s.etat);
    assert s.ring[..k][0] == s.ring[0];
    DistinctConcat(s.ring[k..], [s.ring[0]]);
    DistinctConcat(s.ring[k..] + [s.ring[0]], r);
  }

  lemma UnlinkHead<C, S>(s: Sched<C, S>, k: nat)
    requires RingInv(s) && s.running && 1 <= k <= |s.ring|
    requires forall j :: 1 <= j < |s.ring| && j <= k ==> s.ring[j] !in s.freed
    ensures var t := Unlink(s, k); t.head.value in t.ring && t.head.value !in t.freed
  {
    UnlinkRing(s, k);
    var h := s.head.value;
    var p := IndexOf(s.ring, h);
    if 1 <= p < k {
      HeadLands(s, p, k);
    } else {
      forall j | 1 <= j < k ensures s.ring[j] != h {
        assert j != p;
      }
      assert h !in s.ring[1..k];
    }
  }

  lemma UnlinkInv<C, S>(s: Sched<C, S>, k: nat)
    requires RingInv(s) && s.running && 1 <= k <= |s.ring|
    requires forall j :: 1 <= j < |s.ring| && j <= k ==> s.ring[j] !in s.freed
    requires Runnable(s.etat[s.ring[if k < |s.ring| then k else 0]])
    ensures RingInv(Enter(Unlink(s, k)))
    ensures Enter(Unlink(s, k)).etat[Enter(Unlink(s, k)).ring[0]] == ACTIVABLE
  {
    UnlinkRing(s, k);
    UnlinkHead(s, k);
    var t := Unlink(s, k);
    assert t.freed == s.freed + Reaped(s, k);
    var u := Enter(t);
    assert u.ring == t.ring && u.freed == t.freed;
  }

  lemma YieldRing<C, S>(s: Sched<C, S>)
    requires RingInv(s) && YieldCtx(s).Go?
    ensures RingInv(YieldCtx(s).s)
    ensures YieldCtx(s).s.running && YieldCtx(s).s.etat[YieldCtx(s).s.ring[0]] == ACTIVABLE
  {
    if s.running {
      WalkPasses(s, 1);
      UnlinkInv(s, Walk(s, 1).k);
    }
  }

  /** One context changes from or to ACTIVABLE, WAITING or TERMINATED: the ring does not notice. */
  lemma ToggleRing<C, S>(s: Sched<C, S>, c: C, e: Etat, sems: map<S, Sem<C>>)
    requires RingInv(s) && s.running && c in s.etat && c !in s.freed && s.etat[c] != READY && e != READY
    ensures RingInv(s.(etat := s.etat[c := e], sems := sems))
  {
  }

  /** The running context goes on top of a list. */
  lemma PushLists<C, S>(s: Sched<C, S>, m: S, c: C, q: Sem<C>)
    requires ListsInv(s) && m in s.sems && c in s.etat && s.etat[c] != WAITING
    requires q.blocked == [c] + s.sems[m].blocked
    ensures ListsInv(s.(etat := s.etat[c := WAITING], sems := s.sems[m := q]))
  {
    var u := s.(etat := s.etat[c := WAITING], sems := s.sems[m := q]);
    DistinctConcat([c], s.sems[m].blocked);
    forall x | x in u.etat && u.etat[x] == WAITING ensures OnList(u.sems, x) {
      if x == c {
        assert c in u.sems[m].blocked;
      } else {
        assert OnList(s.sems, x);
        var m' :| m' in s.sems && x in s.sems[m'].blocked;
        assert x in u.sems[m'].blocked;
      }
    }
  }

  /** The top of a list leaves it. */
  lemma PopLists<C, S>(s: Sched<C, S>, m: S, q: Sem<C>)
    requires ListsInv(s) && m in s.sems && s.sems[m].blocked != []
    requires q.blocked == s.sems[m].blocked[1..]
    ensures ListsInv(s.(etat := s.etat[s.sems[m].blocked[0] := ACTIVABLE], sems := s.sems[m := q]))
  {
    var b := s.sems[m].blocked[0];
    var u := s.(etat := s.etat[b := ACTIVABLE], sems := s.sems[m := q]);
    DistinctParts(s.sems[m].blocked, 1);
    assert b in s.sems[m].blocked;
    forall x | x in u.etat && u.etat[x] == WAITING ensures OnList(u.sems, x) {
      assert OnList(s.sems, x);
      var m' :| m' in s.sems && x in s.sems[m'].blocked;
      assert x in u.sems[m'].blocked;
    }
  }

  /** A context that is still on a list returns or blocks. This cannot come from an ACTIVABLE one. */
  predicate StaleCall<C, S>(s: Sched<C, S>, ev: Event<C, S>)
    requires WellFormed(s) && Callable(s, ev)
  {
    s.running && s.etat[s.ring[0]] == WAITING && (ev.Finish? || (ev.Down? && s.sems[ev.m].val < 1))
  }

  lemma StepRing<C, S>(s: Sched<C, S>, ev: Event<C, S>)
    requires RingInv(s) && ListsInv(s) && Callable(s, ev) && Step(s, ev).Go?
    ensures RingInv(Step(s, ev).s)
  {
    match ev
    case Create(c) => CreateRing(s, c);
    case Yield => YieldRing(s);
    case Finish =>
    case Down(m) =>
      if s.sems[m].val < 1 { ToggleRing(s, s.ring[0], WAITING, SemDown(s, m).s.sems); }
    case Up(m) =>
      if s.sems[m].val < 0 {
        assert s.sems[m].blocked[0] in s.sems[m].blocked;
        ToggleRing(s, s.sems[m].blocked[0], ACTIVABLE, SemUp(s, m).s.sems);
      }
  }

  /** A yield leaves the semaphores alone, and makes nobody WAITING. */
  lemma YieldQuiet<C, S>(s: Sched<C, S>)
    requires WellFormed(s) && YieldCtx(s).Go?
    ensures YieldCtx(s).s.sems == s.sems
    ensures forall c :: (c in s.etat && s.etat[c] == WAITING) <==>
                        (c in YieldCtx(s).s.etat && YieldCtx(s).s.etat[c] == WAITING)
  {
    hide Relink, IndexOf, HeadFrom, Distinct;
  }

  /** Operations that neither push nor pop. */
  lemma QuietLists<C, S>(s: Sched<C, S>, ev: Event<C, S>)
    requires WellFormed(s) && ListsInv(s) && Callable(s, ev) && Step(s, ev).Go? && !StaleCall(s, ev)
    requires !(ev.Down? && s.sems[ev.m].val < 1) && !(ev.Up? && s.sems[ev.m].val < 0)
    ensures ListsInv(Step(s, ev).s)
  {
    var t := Step(s, ev).s;
    if ev.Yield? { YieldQuiet(s); }
    hide ListsInv, YieldCtx, IndexOf, Distinct;
    assert s.sems.Keys == t.sems.Keys && forall m :: m in s.sems ==> s.sems[m].blocked == t.sems[m].blocked;
    assert forall c :: (c in s.etat && s.etat[c] == WAITING) <==> (c in t.etat && t.etat[c] == WAITING);
    hide WellFormed, Step;
    SameLists(s, t);
  }

  lemma StepLists<C, S>(s: Sched<C, S>, ev: Event<C, S>)
    requires RingInv(s) && ListsInv(s) && Callable(s, ev) && Step(s, ev).Go? && !StaleCall(s, ev)
    ensures ListsInv(Step(s, ev).s)
  {
    if ev.Down? && s.sems[ev.m].val < 1 {
      var q := SemDown(s, ev.m).s.sems[ev.m];
      assert SemDown(s, ev.m).s == s.(etat := s.etat[s.ring[0] := WAITING], sems := s.sems[ev.m := q]);
      hide ListsInv, RingInv;
      PushLists(s, ev.m, s.ring[0], q);
    } else if ev.Up? && s.sems[ev.m].val < 0 {
      hide ListsInv, RingInv;
      PopLists(s, ev.m, SemUp(s, ev.m).s.sems[ev.m]);
    } else {
      QuietLists(s, ev);
    }
  }

  lemma StepCounts<C, S>(s: Sched<C, S>, ev: Event<C, S>)
    requires WellFormed(s) && CountsInv(s.sems) && Callable(s, ev) && Step(s, ev).Go?
    ensures CountsInv(Step(s, ev).s.sems)
  {
  }

  lemma StepKeeps<C, S>(s: Sched<C, S>, ev: Event<C, S>)
    requires Inv(s) && Callable(s, ev) && Step(s, ev).Go? && !StaleCall(s, ev)
    ensures Inv(Step(s, ev).s)
  {
    StepRing(s, ev);
    StepLists(s, ev);
    StepCounts(s, ev);
  }

  lemma StepInv<C, S>(s: Sched<C, S>, ev: Event<C, S>)
    requires Inv(s) && Enabled(s, ev) && Step(s, ev).Go?
    ensures Inv(Step(s, ev).s)
  {
    StepKeeps(s, ev);
  }

  /** Whatever etat the running context has, a call keeps the invariant exactly when it is no such call. */
  lemma StepExact<C, S>(s: Sched<C, S>, ev: Event<C, S>)
    requires Inv(s) && Callable(s, ev) && Step(s, ev).Go?
    ensures Inv(Step(s, ev).s) <==> !StaleCall(s, ev)
  {
    if StaleCall(s, ev) {
      StaleBreaks(s, ev);
    } else {
      StepKeeps(s, ev);
    }
  }

  lemma StaleBreaks<C, S>(s: Sched<C, S>, ev: Event<C, S>)
    requires Inv(s) && Callable(s, ev) && Step(s, ev).Go? && StaleCall(s, ev)
    ensures !ListsInv(Step(s, ev).s)
  {
    var c := s.ring[0];
    var t := Step(s, ev).s;
    assert OnList(s.sems, c);
    var m :| m in s.sems && c in s.sems[m].blocked;
    assert c in t.sems[m].blocked;
    if ev.Down? {
      assert c in t.sems[ev.m].blocked;
      if ev.m == m {
        assert t.sems[m].blocked[0] == c && t.sems[m].blocked[1..] == s.sems[m].blocked;
        var i :| 0 <= i < |s.sems[m].blocked| && s.sems[m].blocked[i] == c;
        assert t.sems[m].blocked[i + 1] == c;
      }
    }
  }

  lemma RunAt<C, S>(tr: seq<Sched<C, S>>, evs: seq<Event<C, S>>, i: nat)
    requires IsRun(tr, evs) && i < |evs|
    ensures WellFormed(tr[i]) && Enabled(tr[i], evs[i]) && Step(tr[i], evs[i]) == Go(tr[i + 1])
  {
  }

  /** Safety over whole runs, as long as no tick falls inside a yield: whatever contexts are created,
      whatever they do with the semaphores and whenever the timer ticks otherwise, the invariant holds in
      every state. */
  lemma {:induction false} RunInv<C, S>(tr: seq<Sched<C, S>>, evs: seq<Event<C, S>>, i: nat)
    requires IsRun(tr, evs) && i <= |evs| && Inv(tr[0])
    ensures Inv(tr[i])
  {
    hide Inv, Enabled, Step;
    if i > 0 {
      RunInv(tr, evs, i - 1);
      RunAt(tr, evs, i - 1);
      StepInv(tr[i - 1], evs[i - 1]);
    }
  }
}

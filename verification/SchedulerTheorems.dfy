/** What the scheduler and the semaphores guarantee over whole runs when no tick falls inside a yield, and
    exactly where the code as written stops guaranteeing it. */
module SchedulerTheorems {
  import opened Collections
  import opened SchedulerSpec
  import opened SchedulerInvariant

  // ---- The search made by yield -----------------------------------------------------------------

  /** Position `k` is the first one after current_ctx that holds a READY or ACTIVABLE context. */
  predicate FirstRunnable<C(==), S>(s: Sched<C, S>, k: nat)
    requires WellFormed(s) && s.running
  {
    && 1 <= k <= |s.ring|
    && Runnable(s.etat[At(s, k)])
    && (forall j :: 1 <= j < k ==> !Runnable(s.etat[s.ring[j]]))
  }

  /** No node of the ring has been freed. */
  predicate Intact<C(==), S>(s: Sched<C, S>) {
    forall c :: c in s.ring ==> c !in s.freed
  }

  predicate FreedKnown<C(==), S>(s: Sched<C, S>) {
    s.freed <= s.etat.Keys
  }

  lemma {:induction false} WalkExact<C, S>(s: Sched<C, S>, i: nat)
    requires RingInv(s) && s.running && 1 <= i <= |s.ring|
    requires forall j :: 1 <= j < i ==> !Runnable(s.etat[s.ring[j]])
    ensures Walk(s, i).Found? ==> FirstRunnable(s, Walk(s, i).k)
    ensures Walk(s, i).Nothing? ==>
              forall j :: 0 <= j < |s.ring| ==> !Runnable(s.etat[s.ring[j]])
    ensures Walk(s, i).Nothing? ==> forall j :: i <= j < |s.ring| ==> s.ring[j] !in s.freed
    ensures Walk(s, i).Dangling? ==>
              exists j :: i <= j < |s.ring| && s.ring[j] in s.freed
                          && (forall l :: 1 <= l < j ==> !Runnable(s.etat[s.ring[l]]))
    decreases |s.ring| - i
  {
    if i < |s.ring| && s.ring[i] !in s.freed && !Runnable(s.etat[s.ring[i]]) {
      WalkExact(s, i + 1);
    }
  }

  /** With no freed node on the ring, yield always answers: it exits exactly when no context of the ring
      is READY or ACTIVABLE, and otherwise runs the first such context after the current one. */
  lemma YieldSearch<C, S>(s: Sched<C, S>)
    requires Inv(s) && s.running && Intact(s)
    ensures !YieldCtx(s).Crash?
    ensures YieldCtx(s).Exit? <==> forall c :: c in s.ring ==> !Runnable(s.etat[c])
    ensures YieldCtx(s).Go? ==>
              WellFormed(YieldCtx(s).s) && YieldCtx(s).s.running
              && exists k :: FirstRunnable(s, k) && Current(YieldCtx(s).s) == At(s, k)
  {
    WalkExact(s, 1);
    if Walk(s, 1).Found? {
      UnlinkRing(s, Walk(s, 1).k);
      YieldRing(s);
      assert FirstRunnable(s, Walk(s, 1).k);
      assert At(s, Walk(s, 1).k) in s.ring;
    } else {
      forall c | c in s.ring ensures !Runnable(s.etat[c]) {
        var j :| 0 <= j < |s.ring| && s.ring[j] == c;
      }
    }
  }

  /** In general it follows a pointer to freed memory exactly when a freed node comes before every
      runnable context on its way. */
  lemma YieldCrash<C, S>(s: Sched<C, S>)
    requires Inv(s) && s.running
    ensures YieldCtx(s).Crash? <==>
            exists j :: 1 <= j < |s.ring| && s.ring[j] in s.freed
                        && (forall l :: 1 <= l < j ==> !Runnable(s.etat[s.ring[l]]))
  {
    WalkExact(s, 1);
    WalkPasses(s, 1);
    if !YieldCtx(s).Crash? {
      forall j | 1 <= j < |s.ring| && s.ring[j] in s.freed
        ensures exists l :: 1 <= l < j && Runnable(s.etat[s.ring[l]])
      {
        assert !Runnable(s.etat[s.ring[j]]);
        assert Runnable(s.etat[s.ring[Walk(s, 1).k]]);
      }
    }
  }

  // ---- What yield removes from the ring ---------------------------------------------------------

  /** The contexts of `w` that are not TERMINATED, in order. */
  function Survivors<C>(w: seq<C>, etat: map<C, Etat>): seq<C>
    requires forall c :: c in w ==> c in etat
  {
    if w == [] then []
    else (if etat[w[0]] == TERMINATED then [] else [w[0]]) + Survivors(w[1..], etat)
  }

  /** Two neighbours of `w` are TERMINATED. */
  predicate TerminatedPair<C(==)>(w: seq<C>, etat: map<C, Etat>)
    requires forall c :: c in w ==> c in etat
  {
    exists i :: 0 <= i < |w| - 1 && etat[w[i]] == TERMINATED && etat[w[i + 1]] == TERMINATED
  }

  lemma {:induction false} RelinkExact<C>(w: seq<C>, etat: map<C, Etat>)
    requires forall c :: c in w ==> c in etat
    ensures forall c :: c in Relink(w, etat) ==> c in w
    ensures !TerminatedPair(w, etat) ==> Relink(w, etat) == Survivors(w, etat)
    ensures TerminatedPair(w, etat) ==> exists c :: c in Relink(w, etat) && etat[c] == TERMINATED
  {
    if w == [] {
    } else if etat[w[0]] != TERMINATED {
      PairTail(w, etat);
      RelinkExact(w[1..], etat);
    } else if |w| >= 2 {
      assert w[1..][1..] == w[2..];
      PairTail(w, etat);
      PairTail(w[1..], etat);
      RelinkExact(w[2..], etat);
      assert w[1] in Relink(w, etat);
      if etat[w[1]] == TERMINATED {
        assert etat[w[0]] == TERMINATED && etat[w[0 + 1]] == TERMINATED;
      }
    }
  }

  lemma PairTail<C>(w: seq<C>, etat: map<C, Etat>)
    requires w != [] && forall c :: c in w ==> c in etat
    ensures TerminatedPair(w, etat) <==>
            TerminatedPair(w[1..], etat)
            || (|w| >= 2 && etat[w[0]] == TERMINATED && etat[w[1]] == TERMINATED)
  {
  }

  /** The walk of the next yield passes two TERMINATED neighbours. */
  predicate PairAhead<C(==), S>(s: Sched<C, S>)
    requires WellFormed(s)
  {
    && s.running && Walk(s, 1).Found? && Walk(s, 1).k <= |s.ring|
    && 1 <= Walk(s, 1).k
    && TerminatedPair(s.ring[1..Walk(s, 1).k], s.etat)
  }

  /** One yield over an intact ring frees exactly the TERMINATED contexts it passes. The ring it leaves
      is intact exactly when no two of them are neighbours, and is then the old ring, turned to the
      context found, without them. */
  lemma YieldReaps<C, S>(s: Sched<C, S>)
    requires WellFormed(s) && s.running && Intact(s) && YieldCtx(s).Go?
    ensures var k := Walk(s, 1).k;
            && 1 <= k <= |s.ring|
            && YieldCtx(s).s.freed == s.freed + (set c | c in s.ring[1..k] && s.etat[c] == TERMINATED)
            && (Intact(YieldCtx(s).s) <==> !PairAhead(s))
            && (!PairAhead(s) ==>
                  YieldCtx(s).s.ring == s.ring[k..] + [s.ring[0]] + Survivors(s.ring[1..k], s.etat))
  {
    WalkFound(s, 1);
    var k := Walk(s, 1).k;
    var w := s.ring[1..k];
    var t := YieldCtx(s).s;
    RelinkExact(w, s.etat);
    UnlinkRing(s, k);
    assert t.ring == s.ring[k..] + [s.ring[0]] + Relink(w, s.etat);
    if PairAhead(s) {
      var c :| c in Relink(w, s.etat) && s.etat[c] == TERMINATED;
      assert c in t.ring && c in t.freed;
    } else {
      NoSurvivorTerminated(w, s.etat);
      assert s.ring[0] in s.ring;
      assert forall c :: c in s.ring[k..] ==> c in s.ring;
      forall c | c in t.ring ensures c !in t.freed {
        if c in s.ring[k..] {
          var j :| k <= j < |s.ring| && s.ring[j] == c;
        }
      }
    }
  }

  lemma {:induction false} NoSurvivorTerminated<C>(w: seq<C>, etat: map<C, Etat>)
    requires forall c :: c in w ==> c in etat
    ensures forall c :: c in Survivors(w, etat) <==> c in w && etat[c] != TERMINATED
  {
    if w != [] {
      NoSurvivorTerminated(w[1..], etat);
      assert w == [w[0]] + w[1..];
    }
  }

  /** Over a whole run without a tick inside yield the ring never holds a freed node exactly when no yield met
      such a pair. */
  lemma RunIntact<C, S>(tr: seq<Sched<C, S>>, evs: seq<Event<C, S>>)
    requires IsRun(tr, evs) && Inv(tr[0]) && Intact(tr[0])
    ensures (forall i :: 0 <= i < |tr| ==> Intact(tr[i])) <==>
            (forall i :: 0 <= i < |evs| && evs[i].Yield? ==> !PairAhead(tr[i]))
  {
    hide Inv, Intact, PairAhead, Step, Enabled;
    if forall i :: 0 <= i < |evs| && evs[i].Yield? ==> !PairAhead(tr[i]) {
      forall i | 0 <= i < |tr| ensures Intact(tr[i]) {
        IntactUntil(tr, evs, i);
      }
    }
    if forall i :: 0 <= i < |tr| ==> Intact(tr[i]) {
      forall i | 0 <= i < |evs| && evs[i].Yield? ensures !PairAhead(tr[i]) {
        RunInv(tr, evs, i);
        RunAt(tr, evs, i);
        InvFreed(tr[i]);
        StepIntact(tr[i], evs[i]);
        assert Intact(tr[i + 1]);
      }
    }
  }

  lemma {:induction false} IntactUntil<C, S>(tr: seq<Sched<C, S>>, evs: seq<Event<C, S>>, j: nat)
    requires IsRun(tr, evs) && Inv(tr[0]) && Intact(tr[0]) && j <= |evs|
    requires forall i :: 0 <= i < |evs| && evs[i].Yield? ==> !PairAhead(tr[i])
    ensures Intact(tr[j])
  {
    hide Inv, Intact, PairAhead, Step, Enabled;
    if j > 0 {
      IntactUntil(tr, evs, j - 1);
      RunInv(tr, evs, j - 1);
      RunAt(tr, evs, j - 1);
      InvFreed(tr[j - 1]);
      StepIntact(tr[j - 1], evs[j - 1]);
    }
  }

  lemma InvFreed<C, S>(s: Sched<C, S>)
    requires Inv(s)
    ensures FreedKnown(s)
  {
  }

  lemma StepIntact<C, S>(s: Sched<C, S>, ev: Event<C, S>)
    requires WellFormed(s) && FreedKnown(s) && Intact(s) && Callable(s, ev) && Step(s, ev).Go?
    ensures Intact(Step(s, ev).s) <==> !(ev.Yield? && PairAhead(s))
  {
    match ev
    case Create(c) =>
      if s.ring != [] { InsertDistinct(s.ring, IndexOf(s.ring, s.head.value) + 1, c); }
    case Yield => if s.running { YieldReaps(s); }
    case _ =>
  }

  // ---- Bounded waiting --------------------------------------------------------------------------

  function Yields<C, S>(evs: seq<Event<C, S>>): nat {
    if evs == [] then 0 else Yields(evs[..|evs| - 1]) + if evs[|evs| - 1].Yield? then 1 else 0
  }

  function Creates<C, S>(evs: seq<Event<C, S>>): nat {
    if evs == [] then 0 else Creates(evs[..|evs| - 1]) + if evs[|evs| - 1].Create? then 1 else 0
  }

  /** `x` could run but is not the running context, if there is one. */
  predicate Waits<C(==), S>(s: Sched<C, S>, x: C) {
    WellFormed(s) && x in s.ring && Runnable(s.etat[x]) && (s.running ==> s.ring[0] != x)
  }

  lemma {:induction false} IndexUnique<T>(s: seq<T>, i: nat)
    requires Distinct(s) && i < |s|
    ensures s[i] in s && IndexOf(s, s[i]) == i
  {
  }

  /** The ring distance from current_ctx to `x`; before the first yield, one more than from ctx_ring. */
  function Distance<C, S>(s: Sched<C, S>, x: C): nat
    requires Waits(s, x)
  {
    IndexOf(s.ring, x) + if s.running then 0 else 1
  }

  /** A yield brings a waiting context strictly nearer; a creation puts it at most one further. */
  lemma DistanceStep<C, S>(s: Sched<C, S>, ev: Event<C, S>, x: C)
    requires Inv(s) && Enabled(s, ev) && Step(s, ev).Go?
    requires Waits(s, x) && Waits(Step(s, ev).s, x)
    ensures Distance(Step(s, ev).s, x) + (if ev.Yield? then 1 else 0)
            <= Distance(s, x) + (if ev.Create? then 1 else 0)
  {
    match ev
    case Create(c) =>
      CreateFarther(s, c, x);
      hide WellFormed, CreateCtx;
    case Yield =>
      if s.running { YieldNearer(s, x); }
    case _ =>
  }

  lemma CreateFarther<C, S>(s: Sched<C, S>, c: C, x: C)
    requires WellFormed(s) && c !in s.etat && x in s.ring
    ensures CreateCtx(s, c).running == s.running && x in CreateCtx(s, c).ring
    ensures IndexOf(CreateCtx(s, c).ring, x) <= IndexOf(s.ring, x) + 1
  {
    InsertFarther(s.ring, IndexOf(s.ring, s.head.value) + 1, c, x);
  }

  lemma InsertFarther<C>(r: seq<C>, p: nat, c: C, x: C)
    requires Distinct(r) && c !in r && p <= |r| && x in r
    ensures x in r[..p] + [c] + r[p..] && IndexOf(r[..p] + [c] + r[p..], x) <= IndexOf(r, x) + 1
  {
    InsertDistinct(r, p, c);
    var d := IndexOf(r, x);
    var r' := r[..p] + [c] + r[p..];
    assert r'[if d < p then d else d + 1] == x;
    hide IndexOf;
    IndexUnique(r', if d < p then d else d + 1);
  }

  lemma YieldNearer<C, S>(s: Sched<C, S>, x: C)
    requires Inv(s) && s.running && Waits(s, x) && YieldCtx(s).Go? && Waits(YieldCtx(s).s, x)
    ensures Distance(YieldCtx(s).s, x) < Distance(s, x) && YieldCtx(s).s.running
  {
    WalkPasses(s, 1);
    var k := Walk(s, 1).k;
    var d := IndexOf(s.ring, x);
    assert k <= d;
    assert YieldCtx(s).s.ring == Unlink(s, k).ring && YieldCtx(s).s.running;
    hide Inv, Walk, Unlink, YieldCtx, Waits;
    UnlinkAt(s, k, d);
  }

  lemma UnlinkAt<C, S>(s: Sched<C, S>, k: nat, d: nat)
    requires WellFormed(s) && s.ring != [] && 1 <= k <= d < |s.ring|
    ensures s.ring[d] in Unlink(s, k).ring && IndexOf(Unlink(s, k).ring, s.ring[d]) == d - k
  {
    UnlinkRing(s, k);
    var r := Unlink(s, k).ring;
    assert r[d - k] == s.ring[d];
    hide WellFormed, Unlink;
    IndexUnique(r, d - k);
  }

  /** Bounded waiting, as long as no tick falls inside a yield: a context that stays READY or ACTIVABLE but is
      never the running one has seen at most n - 2 + k yields, n being the length of the ring at the start
      and k the number of contexts created since; one more if nothing ran at the start. So it runs at the
      latest at yield n - 1 + k, or n + k if the first yield is still to come. */
  lemma {:induction false} BoundedWaiting<C, S>(tr: seq<Sched<C, S>>, evs: seq<Event<C, S>>, x: C)
    requires IsRun(tr, evs) && Inv(tr[0])
    requires forall i :: 0 <= i < |tr| ==> Waits(tr[i], x)
    ensures Yields(evs) <= |tr[0].ring| - 2 + Creates(evs) + (if tr[0].running then 0 else 1)
  {
    DistanceRun(tr, evs, x, |evs|);
    assert evs[..|evs|] == evs;
    FarFrom(tr[|evs|], x);
    FarFrom(tr[0], x);
  }

  lemma FarFrom<C, S>(s: Sched<C, S>, x: C)
    requires Waits(s, x)
    ensures 1 <= Distance(s, x) <= |s.ring| - (if s.running then 1 else 0)
  {
  }

  /** Each of these yields goes on, as long as no freed node is left on the ring. */
  lemma YieldGoesOn<C, S>(s: Sched<C, S>, x: C)
    requires Inv(s) && Waits(s, x) && Intact(s)
    ensures YieldCtx(s).Go?
  {
    if s.running {
      YieldSearch(s);
    }
  }

  lemma {:induction false} DistanceRun<C, S>(tr: seq<Sched<C, S>>, evs: seq<Event<C, S>>, x: C, j: nat)
    requires IsRun(tr, evs) && Inv(tr[0]) && j <= |evs|
    requires forall i :: 0 <= i < |tr| ==> Waits(tr[i], x)
    ensures Distance(tr[j], x) + Yields(evs[..j]) <= Distance(tr[0], x) + Creates(evs[..j])
  {
    hide Inv, Waits, Step, Enabled, Distance;
    if j > 0 {
      DistanceRun(tr, evs, x, j - 1);
      RunInv(tr, evs, j - 1);
      RunAt(tr, evs, j - 1);
      DistanceStep(tr[j - 1], evs[j - 1], x);
      assert evs[..j][..j - 1] == evs[..j - 1] && evs[..j][j - 1] == evs[j - 1];
    }
  }

  // ---- Life cycle -------------------------------------------------------------------------------

  /** The only changes of etat: READY and WAITING to ACTIVABLE, ACTIVABLE to WAITING or TERMINATED. A
      context leaves WAITING through sem_up only, and starts through yield only. */
  lemma LifeCycleStep<C, S>(s: Sched<C, S>, ev: Event<C, S>, c: C)
    requires Inv(s) && Enabled(s, ev) && Step(s, ev).Go? && c in s.etat
    ensures var t := Step(s, ev).s;
            && c in t.etat
            && (t.etat[c] != s.etat[c] ==>
                  || (s.etat[c] == READY && t.etat[c] == ACTIVABLE && ev.Yield?
                      && t.running && t.ring[0] == c && t.entries[c] == s.entries[c] + 1)
                  || (s.etat[c] == WAITING && t.etat[c] == ACTIVABLE && ev.Up?
                      && s.sems[ev.m].val < 0 && s.sems[ev.m].blocked != [] && s.sems[ev.m].blocked[0] == c)
                  || (s.etat[c] == ACTIVABLE && t.etat[c] == WAITING && ev.Down?
                      && s.running && s.ring[0] == c && s.sems[ev.m].val < 1)
                  || (s.etat[c] == ACTIVABLE && t.etat[c] == TERMINATED && ev.Finish?
                      && s.running && s.ring[0] == c))
            && (t.etat[c] == s.etat[c] ==> t.entries[c] == s.entries[c])
            && (c in s.freed ==> c in t.freed)
  {
    match ev
    case Yield =>
      YieldEtat(s);
      hide Inv, YieldCtx;
    case Up(m) =>
      if s.sems[m].val < 0 {
        assert s.sems[m].blocked[0] in s.sems[m].blocked;
      }
      hide RingInv;
    case _ => hide Inv;
  }

  /** A yield enters the context it chooses, and frees some. */
  lemma YieldEtat<C, S>(s: Sched<C, S>)
    requires Inv(s) && YieldCtx(s).Go?
    ensures var t := YieldCtx(s).s;
            && t.running && t.ring != [] && t.ring[0] in s.etat && t.ring[0] in s.entries && s.freed <= t.freed
            && t.etat == (if s.etat[t.ring[0]] == READY then s.etat[t.ring[0] := ACTIVABLE] else s.etat)
            && t.entries == (if s.etat[t.ring[0]] == READY
                             then s.entries[t.ring[0] := s.entries[t.ring[0]] + 1] else s.entries)
  {
    YieldRing(s);
    if s.running {
      WalkPasses(s, 1);
      UnlinkRing(s, Walk(s, 1).k);
      hide Walk, Relink;
    }
  }

  /** What holds of one context between two states of a run. */
  predicate Aged<C(==), S>(s: Sched<C, S>, t: Sched<C, S>, c: C)
    requires RingInv(s) && RingInv(t) && c in s.etat
  {
    && c in t.etat
    && (s.etat[c] == TERMINATED ==> t.etat[c] == TERMINATED)
    && (c in s.freed ==> c in t.freed)
    && s.entries[c] <= t.entries[c] <= 1
  }

  /** Over a run without a tick inside yield, and so over any stretch of one: a TERMINATED context stays
      TERMINATED, a freed one stays freed, and an entry point is called at most once. */
  lemma {:induction false} LifeCycle<C, S>(tr: seq<Sched<C, S>>, evs: seq<Event<C, S>>, j: nat, c: C)
    requires IsRun(tr, evs) && Inv(tr[0]) && j <= |evs| && c in tr[0].etat
    ensures RingInv(tr[j]) && Aged(tr[0], tr[j], c)
  {
    if j > 0 {
      LifeCycle(tr, evs, j - 1, c);
      RunInv(tr, evs, j - 1);
      RunAt(tr, evs, j - 1);
      StepInv(tr[j - 1], evs[j - 1]);
      AgedStep(tr[0], tr[j - 1], evs[j - 1], tr[j], c);
    }
  }

  lemma AgedStep<C, S>(s: Sched<C, S>, t: Sched<C, S>, ev: Event<C, S>, u: Sched<C, S>, c: C)
    requires RingInv(s) && Inv(t) && Enabled(t, ev) && Step(t, ev) == Go(u) && RingInv(u)
    requires c in s.etat && Aged(s, t, c)
    ensures Aged(s, u, c)
  {
    LifeCycleStep(t, ev, c);
  }

  /** Over a run without a tick inside yield: the context a yield has just chosen is ACTIVABLE, hence neither
      TERMINATED nor WAITING nor freed. */
  lemma Scheduled<C, S>(tr: seq<Sched<C, S>>, evs: seq<Event<C, S>>, j: nat)
    requires IsRun(tr, evs) && Inv(tr[0]) && j < |evs| && evs[j].Yield?
    ensures WellFormed(tr[j + 1]) && tr[j + 1].running
    ensures tr[j + 1].etat[Current(tr[j + 1])] == ACTIVABLE && Current(tr[j + 1]) !in tr[j + 1].freed
  {
    RunInv(tr, evs, j);
    assert Step(tr[j], evs[j]) == Go(tr[j + 1]);
    YieldRing(tr[j]);
  }

  // ---- Tokens -----------------------------------------------------------------------------------

  /** The law the counter is meant to obey: its opposite, when negative, is how many contexts wait. */
  predicate QueueLaw<C>(q: Sem<C>) {
    |q.blocked| == if q.val < 0 then -q.val else 0
  }

  /** Tokens granted minus tokens given back never exceed the initial value `n`, and fall short of it by
      exactly what is left in `val`. The counter is also `n` plus the ups minus the downs, short of the
      wake-ups, which leave it alone; so that law, and the law tying it to the length of the list, hold
      exactly as long as nobody has been woken. */
  predicate Conserved<C>(q: Sem<C>, n: int) {
    && q.Granted() - q.Ups() == n - (if q.val > 0 then q.val else 0)
    && q.Granted() - q.Ups() <= n
    && q.val == n + q.Ups() - q.Downs() - q.woken
    && (q.val >= 0 ==> q.blocked == [])
    && (q.val < 0 ==> |q.blocked| == -q.val - q.woken)
    && (QueueLaw(q) <==> q.woken == 0)
  }

  /** Conservation over every run without a tick inside yield. */
  lemma TokenConservation<C, S>(initial: map<S, nat>, tr: seq<Sched<C, S>>, evs: seq<Event<C, S>>, i: nat, m: S)
    requires forall x :: x in initial ==> initial[x] < 0x8000_0000
    requires IsRun(tr, evs) && tr[0] == Boot(initial) && i <= |evs| && m in initial
    ensures m in tr[i].sems && Conserved(tr[i].sems[m], initial[m])
  {
    BootInv<C, S>(initial);
    RunInv(tr, evs, i);
    SemsKept(tr, evs, i, m);
    assert CountInv(tr[i].sems[m]);
  }

  lemma {:induction false} SemsKept<C, S>(tr: seq<Sched<C, S>>, evs: seq<Event<C, S>>, i: nat, m: S)
    requires IsRun(tr, evs) && i <= |evs| && m in tr[0].sems
    ensures m in tr[i].sems && tr[i].sems[m].initial == tr[0].sems[m].initial
  {
    if i > 0 {
      SemsKept(tr, evs, i - 1, m);
      assert Step(tr[i - 1], evs[i - 1]) == Go(tr[i - 1 + 1]);
    }
  }

  /** sem_up keeps the law exactly when it does not enter its wake branch. */
  lemma UpKeepsLaw<C, S>(s: Sched<C, S>, m: S)
    requires WellFormed(s) && m in s.sems && QueueLaw(s.sems[m])
    ensures SemUp(s, m).Go?
    ensures QueueLaw(SemUp(s, m).s.sems[m]) <==> s.sems[m].val >= 0
  {
  }

  /** sem_up dereferences NULL exactly when the counter is negative and everyone blocked on it has
      already been woken; in particular this happens after a wake-up. */
  lemma UpCrash<C, S>(s: Sched<C, S>, m: S)
    requires Inv(s) && m in s.sems
    ensures SemUp(s, m).Crash? <==> s.sems[m].val < 0 && s.sems[m].blocked == []
    ensures SemUp(s, m).Crash? <==> s.sems[m].woken == s.sems[m].parked > 0
  {
  }

  /** Before the first yield, when current_ctx is NULL: a sem_down that blocks follows it exactly when no token is
      left; the first yield turns to the head of the ring, or follows NULL exactly when there is no context. */
  lemma FirstCalls<C, S>(s: Sched<C, S>, m: S)
    requires RingInv(s) && !s.running && m in s.sems
    ensures SemDown(s, m) == Crash <==> s.sems[m].val < 1
    ensures YieldCtx(s) == Crash <==> s.etat == map[]
    ensures s.etat != map[] ==>
              && YieldCtx(s).Go? && YieldCtx(s).s.running && YieldCtx(s).s.ring == s.ring
              && s.ring != [] && s.head == Some(s.ring[0]) && YieldCtx(s).s.entries[s.ring[0]] == 1
  {
    assert s.ring == [] ==> s.etat == map[];
  }

  /** The running context may create another one, which goes right after ctx_ring; if that is the creator, the next
      yield calls the entry point of the new context. */
  lemma CreatedNext<C, S>(s: Sched<C, S>, c: C)
    requires RingInv(s) && s.running && s.etat[s.ring[0]] == ACTIVABLE && s.head == Some(s.ring[0]) && c !in s.etat
    ensures Enabled(s, Create(c)) && Step(s, Create(c)).Go?
    ensures var t := Step(s, Create(c)).s;
            && RingInv(t) && Enabled(t, Yield) && Step(t, Yield).Go?
            && var u := Step(t, Yield).s;
              u.running && u.ring[0] == c && c in u.etat && u.etat[c] == ACTIVABLE && u.entries[c] == 1
  {
    CreateRing(s, c);
    var t := Step(s, Create(c)).s;
    assert IndexOf(s.ring, s.ring[0]) == 0 && t.ring[1] == c;
    assert Walk(t, 1) == Found(1);
    YieldRing(t);
  }

  /** sem_init keeps the invariant exactly for values below 2^31 and on a semaphore nobody is blocked on. */
  lemma SemInitExact<C, S>(s: Sched<C, S>, m: S, v: nat)
    requires Inv(s) && v < 0x1_0000_0000
    ensures Inv(InitSem(s, m, v)) <==> v < 0x8000_0000 && (m in s.sems ==> s.sems[m].blocked == [])
  {
    var t := InitSem(s, m, v);
    assert RingInv(t);
    SemInitLists(s, m, v);
    assert CountInv(t.sems[m]) <==> v < 0x8000_0000;
    assert CountsInv(t.sems) <==> v < 0x8000_0000;
    hide RingInv, ListsInv, CountsInv;
  }

  lemma SemInitLists<C, S>(s: Sched<C, S>, m: S, v: nat)
    requires ListsInv(s) && v < 0x1_0000_0000
    ensures ListsInv(InitSem(s, m, v)) <==> (m in s.sems ==> s.sems[m].blocked == [])
  {
    if m in s.sems && s.sems[m].blocked != [] {
      InitLosesList(s, m, v);
    } else {
      InitKeepsLists(s, m, v);
    }
    hide ListsInv;
  }

  lemma InitLosesList<C, S>(s: Sched<C, S>, m: S, v: nat)
    requires ListsInv(s) && v < 0x1_0000_0000 && m in s.sems && s.sems[m].blocked != []
    ensures !ListsInv(InitSem(s, m, v))
  {
    var c := s.sems[m].blocked[0];
    assert c in s.sems[m].blocked && s.etat[c] == WAITING && !OnList(InitSem(s, m, v).sems, c);
  }

  lemma InitKeepsLists<C, S>(s: Sched<C, S>, m: S, v: nat)
    requires ListsInv(s) && v < 0x1_0000_0000 && (m in s.sems ==> s.sems[m].blocked == [])
    ensures ListsInv(InitSem(s, m, v))
  {
    var t := InitSem(s, m, v);
    assert t.etat == s.etat && t.sems[m].blocked == [];
    assert forall x :: x in t.sems && x != m ==> x in s.sems && t.sems[x] == s.sems[x];
    hide InitSem, OnList;
    forall c | c in t.etat && t.etat[c] == WAITING ensures OnList(t.sems, c) {
      InitOnList(s, t, m, c);
    }
    forall x, y, c | x in t.sems && y in t.sems && x != y && c in t.sems[x].blocked ensures c !in t.sems[y].blocked {
    }
  }

  lemma InitOnList<C, S>(s: Sched<C, S>, t: Sched<C, S>, m: S, c: C)
    requires OnList(s.sems, c) && (m in s.sems ==> s.sems[m].blocked == [])
    requires forall x :: x in s.sems && x != m ==> x in t.sems && t.sems[x] == s.sems[x]
    ensures OnList(t.sems, c)
  {
    var x :| x in s.sems && c in s.sems[x].blocked;
    assert x in t.sems && c in t.sems[x].blocked;
  }

  // ---- Mutual exclusion -------------------------------------------------------------------------

  /** On semaphore `m` contexts alternate sem_down and sem_up. */
  predicate Alternates<C(==), S(==)>(s: Sched<C, S>, ev: Event<C, S>, m: S)
    requires WellFormed(s) && m in s.sems
  {
    && (ev == Down(m) ==> s.running && s.ring[0] !in s.sems[m].holders)
    && (ev == Up(m) ==> s.running && s.ring[0] in s.sems[m].holders)
  }

  predicate HoldersInv<C(==)>(q: Sem<C>) {
    && |q.holders| == q.Granted() - q.Ups()
    && (forall c :: c in q.blocked ==> c !in q.holders)
  }

  /** Taking a token. */
  lemma TakeHolds<C>(q: Sem<C>, c: C)
    requires HoldersInv(q) && c !in q.holders && q.blocked == []
    ensures HoldersInv(q.(val := q.val - 1, taken := q.taken + 1, holders := q.holders + {c}))
  {
  }

  /** Giving one back, to the context blocked last if there is one. */
  lemma ReleaseHolds<C>(q: Sem<C>, c: C)
    requires HoldersInv(q) && c in q.holders && Distinct(q.blocked) && (q.val >= 0 || q.blocked != [])
    ensures HoldersInv(Released(q, {c}))
  {
    assert |q.holders - {c}| == |q.holders| - 1;
    if q.val < 0 {
      DistinctParts(q.blocked, 1);
      assert q.blocked[0] in q.blocked;
    }
  }

  /** What an operation does to one semaphore. */
  function After<C, S>(s: Sched<C, S>, ev: Event<C, S>, m: S): Sem<C>
    requires WellFormed(s) && m in s.sems
    requires ev == Up(m) ==> s.sems[m].val >= 0 || s.sems[m].blocked != []
    requires ev == Down(m) ==> s.sems[m].val >= 1 || s.running
  {
    var q := s.sems[m];
    if ev == Up(m) then Released(q, Caller(s))
    else if ev == Down(m) && q.val >= 1 then
      q.(val := q.val - 1, taken := q.taken + 1, holders := q.holders + Caller(s))
    else if ev == Down(m) then q.(val := q.val - 1, blocked := [s.ring[0]] + q.blocked, parked := q.parked + 1)
    else q
  }

  lemma AfterExact<C, S>(s: Sched<C, S>, ev: Event<C, S>, m: S)
    requires WellFormed(s) && Callable(s, ev) && Step(s, ev).Go? && m in s.sems
    ensures ev == Up(m) ==> s.sems[m].val >= 0 || s.sems[m].blocked != []
    ensures ev == Down(m) ==> s.sems[m].val >= 1 || s.running
    ensures m in Step(s, ev).s.sems && Step(s, ev).s.sems[m] == After(s, ev, m)
  {
  }

  lemma HoldersStep<C, S>(s: Sched<C, S>, ev: Event<C, S>, m: S)
    requires Inv(s) && Callable(s, ev) && Step(s, ev).Go?
    requires m in s.sems && Alternates(s, ev, m) && HoldersInv(s.sems[m])
    ensures m in Step(s, ev).s.sems && HoldersInv(Step(s, ev).s.sems[m])
  {
    BlockedShape(s, m);
    AfterExact(s, ev, m);
    hide Inv, WellFormed, Step, Callable;
    if ev == Down(m) && s.sems[m].val >= 1 {
      TakeHolds(s.sems[m], s.ring[0]);
    } else if ev == Up(m) {
      ReleaseHolds(s.sems[m], s.ring[0]);
    }
  }

  lemma BlockedShape<C, S>(s: Sched<C, S>, m: S)
    requires Inv(s) && m in s.sems
    ensures Distinct(s.sems[m].blocked) && (s.sems[m].val >= 0 ==> s.sems[m].blocked == [])
  {
    assert CountInv(s.sems[m]);
  }

  /** As long as no tick falls inside a yield: when contexts alternate sem_down and sem_up on a semaphore, at
      most its initial value of them hold a token at any time. For the value 1 this is mutual exclusion. */
  lemma {:induction false} MutualExclusion<C, S>(initial: map<S, nat>, tr: seq<Sched<C, S>>, evs: seq<Event<C, S>>,
                                                 i: nat, m: S)
    requires forall x :: x in initial ==> initial[x] < 0x8000_0000
    requires IsRun(tr, evs) && tr[0] == Boot(initial) && i <= |evs| && m in initial
    requires forall j :: 0 <= j < i ==> m in tr[j].sems && Alternates(tr[j], evs[j], m)
    ensures m in tr[i].sems && |tr[i].sems[m].holders| <= initial[m]
    ensures initial[m] == 1 ==>
              forall a, b :: a in tr[i].sems[m].holders && b in tr[i].sems[m].holders ==> a == b
  {
    HoldersRun(initial, tr, evs, i, m);
    TokenConservation(initial, tr, evs, i, m);
    hide IsRun, Alternates, Boot;
    var h := tr[i].sems[m].holders;
    forall a, b | a in h && b in h && a != b ensures |h| >= 2 {
      assert {a, b} <= h;
      SubsetSize({a, b}, h);
    }
  }

  lemma SubsetSize<T>(a: set<T>, b: set<T>)
    requires a <= b
    ensures |a| <= |b|
  {
    assert b == a + (b - a);
  }

  lemma {:induction false} HoldersRun<C, S>(initial: map<S, nat>, tr: seq<Sched<C, S>>, evs: seq<Event<C, S>>,
                                            i: nat, m: S)
    requires forall x :: x in initial ==> initial[x] < 0x8000_0000
    requires IsRun(tr, evs) && tr[0] == Boot(initial) && i <= |evs| && m in initial
    requires forall j :: 0 <= j < i ==> m in tr[j].sems && Alternates(tr[j], evs[j], m)
    ensures m in tr[i].sems && HoldersInv(tr[i].sems[m])
  {
    BootInv<C, S>(initial);
    if i > 0 {
      hide Inv, Enabled, Step, Alternates, HoldersInv;
      HoldersRun(initial, tr, evs, i - 1, m);
      RunInv(tr, evs, i - 1);
      RunAt(tr, evs, i - 1);
      HoldersStep(tr[i - 1], evs[i - 1], m);
    }
  }
}

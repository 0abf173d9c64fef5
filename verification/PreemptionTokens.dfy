/** Who holds a token and who believes to, with ticks anywhere: mutual exclusion, and how a stale switch breaks
    it. */
module PreemptionTokens {
  import opened Collections
  import opened SchedulerSpec
  import opened SchedulerInvariant
  import opened SchedulerTheorems
  import opened Preemption
  import opened PreemptionTheorems

  predicate CallsOn<C(==), S>(k: Kernel<C, S>, c: C, m: S) {
    c in k.calling && k.calling[c] == m
  }

  /** Blocked contexts are inside the sem_down of their semaphore. One that is, and is not blocked any more,
      was given a token. */
  predicate CallsInv<C(==), S(==)>(k: Kernel<C, S>)
    requires WellFormed(k.s)
  {
    && (forall m, c :: m in k.s.sems && c in k.s.sems[m].blocked ==> CallsOn(k, c, m))
    && (forall c :: c in k.calling ==> CallOk(k, c))
    && (Settled(k) ==> k.s.ring[0] !in k.calling)
  }

  predicate CallOk<C(==), S(==)>(k: Kernel<C, S>, c: C)
    requires c in k.calling
  {
    && c in k.s.etat && k.calling[c] in k.s.sems
    && (k.s.etat[c] != WAITING ==> c in k.s.sems[k.calling[c]].holders)
  }

  /** Whoever returned from sem_down was granted the token. */
  predicate TokenLaw<C(==), S(==)>(k: Kernel<C, S>) {
    forall p :: p in k.inside ==> p.1 in k.s.sems && p.0 in k.s.sems[p.1].holders
  }

  /** Whoever was granted a token has returned from sem_down, or is about to. */
  predicate GrantsInv<C(==), S(==)>(k: Kernel<C, S>) {
    forall m, c :: m in k.s.sems && c in k.s.sems[m].holders ==> Granted(k, c, m)
  }

  predicate Granted<C(==), S(==)>(k: Kernel<C, S>, c: C, m: S) {
    (c, m) in k.inside || (CallsOn(k, c, m) && c in k.s.etat && k.s.etat[c] != WAITING)
  }

  predicate Tokens<C(==), S(==)>(k: Kernel<C, S>)
    requires WellFormed(k.s)
  {
    CallsInv(k) && TokenLaw(k) && GrantsInv(k)
  }

  /** The running context, when it goes on with its own code, is not one that should be blocked. */
  predicate Calm<C(==), S(==)>(k: Kernel<C, S>) {
    && KernelInv(k) && WellFormed(k.s)
    && (Settled(k) ==> k.s.etat[k.s.ring[0]] != WAITING)
  }

  lemma SoundCalm<C, S>(k: Kernel<C, S>)
    requires Sound(k)
    ensures Calm(k)
  {
    hide KernelInv;
  }

  /** The switch is the last one on the stack of its target, which then returns from the sem_down it called. */
  predicate Returns<C(==), S>(k: Kernel<C, S>)
    requires WellFormed(k.s) && InWindow(k)
  {
    && Target(k) in k.calling && Target(k) !in k.due
    && !Open(Without(k.windows, Last(k.windows, k.s.ring[0])), Target(k))
  }

  /** No context that is still blocked returns from its sem_down. */
  predicate Woken<C(==), S>(k: Kernel<C, S>, a: Act<C, S>)
    requires WellFormed(k.s) && Permitted(k, a)
  {
    a.Switch? && Returns(k) ==> !(Target(k) in k.s.etat && k.s.etat[Target(k)] == WAITING)
  }

  // ---- Preservation -----------------------------------------------------------------------------

  /** Nothing that tokens depend on changes. */
  lemma StillTokens<C, S>(k: Kernel<C, S>, t: Kernel<C, S>)
    requires WellFormed(k.s) && WellFormed(t.s) && Tokens(k) && !Settled(t)
    requires t.s.etat == k.s.etat && t.s.sems == k.s.sems && t.calling == k.calling && t.inside == k.inside
    ensures Tokens(t)
  {
    hide WellFormed, Settled;
    forall m, c | m in t.s.sems && c in t.s.sems[m].holders ensures Granted(t, c, m) {
      assert Granted(k, c, m);
    }
    forall c | c in t.calling ensures CallOk(t, c) {
      assert CallOk(k, c);
    }
  }

  /** Nobody has called anything yet. */
  lemma NoTokens<C, S>(k: Kernel<C, S>, t: Kernel<C, S>)
    requires WellFormed(k.s) && WellFormed(t.s) && Tokens(k) && t.s.sems == k.s.sems
    requires k.calling == t.calling == map[] && k.inside == t.inside == {}
    ensures Tokens(t)
  {
    hide WellFormed, Settled;
    forall m, c | m in t.s.sems && c in t.s.sems[m].holders ensures Granted(t, c, m) {
      assert Granted(k, c, m);
    }
  }

  lemma ChooseTokens<C, S>(k: Kernel<C, S>, tick: bool)
    requires Calm(k) && Tokens(k) && ChooseStep(k, tick).Go? && WellFormed(ChooseStep(k, tick).s.s)
    ensures Tokens(ChooseStep(k, tick).s)
  {
    ChooseSettles(k, tick);
    var t := ChooseStep(k, tick).s;
    if k.s.running {
      assert t.s.etat == k.s.etat && t.s.sems == k.s.sems && t.calling == k.calling && t.inside == k.inside;
      hide Inv, ChooseStep, Tokens;
      StillTokens(k, t);
    } else {
      assert t.s.sems == k.s.sems && t.calling == map[] && t.inside == {};
      hide Inv, ChooseStep, Tokens;
      NoTokens(k, t);
    }
  }

  /** `t` is `k` after a switch to `x`, which comes `back` from a sem_down or not. */
  predicate Moved<C(==), S(==)>(k: Kernel<C, S>, t: Kernel<C, S>, x: C, back: bool) {
    && x in k.s.etat && t.s.sems == k.s.sems
    && t.s.etat == (if k.s.etat[x] == READY then k.s.etat[x := ACTIVABLE] else k.s.etat)
    && (back ==> x in k.calling && t.inside == k.inside + {(x, k.calling[x])} && t.calling == k.calling - {x})
    && (!back ==> t.inside == k.inside && t.calling == k.calling)
  }

  lemma SwitchMoves<C, S>(k: Kernel<C, S>)
    requires KernelInv(k) && InWindow(k) && SwitchStep(k).Go?
    ensures var t := SwitchStep(k).s;
            && WellFormed(t.s) && t.s.running && t.s.ring[0] == Target(k) && t.due == k.due
            && Target(k) !in k.s.freed && Moved(k, t, Target(k), Returns(k))
            && (Settled(t) ==> Target(k) !in t.calling)
  {
    TargetKnown(k);
    TurnInv(k.s, Target(k));
    var t := SwitchStep(k).s;
    assert WellFormed(k.s) && SwitchCtx(k.s, Target(k)).Go? && t.s == SwitchCtx(k.s, Target(k)).s;
    hide Inv, SwitchCtx, Last;
  }

  lemma MovedCalls<C, S>(k: Kernel<C, S>, t: Kernel<C, S>, x: C, back: bool)
    requires WellFormed(k.s) && WellFormed(t.s) && CallsInv(k) && Moved(k, t, x, back)
    requires (back ==> k.s.etat[x] != WAITING) && (Settled(t) ==> t.s.ring[0] !in t.calling)
    requires back ==> forall m, c :: m in k.s.sems && c in k.s.sems[m].blocked ==> c != x
    ensures CallsInv(t)
  {
    hide Settled, WellFormed;
  }

  lemma MovedLaw<C, S>(k: Kernel<C, S>, t: Kernel<C, S>, x: C, back: bool)
    requires TokenLaw(k) && Moved(k, t, x, back) && (back ==> k.s.etat[x] != WAITING && CallOk(k, x))
    ensures TokenLaw(t)
  {
  }

  lemma MovedGrants<C, S>(k: Kernel<C, S>, t: Kernel<C, S>, x: C, back: bool)
    requires GrantsInv(k) && Moved(k, t, x, back)
    ensures GrantsInv(t)
  {
    forall m, c | m in t.s.sems && c in t.s.sems[m].holders ensures Granted(t, c, m) {
      assert Granted(k, c, m);
    }
  }

  lemma MovedTokens<C, S>(k: Kernel<C, S>, t: Kernel<C, S>, x: C, back: bool)
    requires WellFormed(k.s) && WellFormed(t.s) && ListsInv(k.s) && Tokens(k) && Moved(k, t, x, back)
    requires (back ==> k.s.etat[x] != WAITING) && (Settled(t) ==> t.s.ring[0] !in t.calling)
    ensures Tokens(t)
  {
    assert back ==> forall m, c :: m in k.s.sems && c in k.s.sems[m].blocked ==> c != x;
    assert back ==> x in k.calling && CallOk(k, x);
    hide Settled, WellFormed, CallsInv, TokenLaw, GrantsInv, ListsInv, CallOk;
    MovedCalls(k, t, x, back);
    MovedLaw(k, t, x, back);
    MovedGrants(k, t, x, back);
  }

  lemma SwitchTokens<C, S>(k: Kernel<C, S>)
    requires Calm(k) && Tokens(k) && InWindow(k) && SwitchStep(k).Go? && Woken(k, Switch)
    ensures WellFormed(SwitchStep(k).s.s) && Tokens(SwitchStep(k).s)
  {
    SwitchMoves(k);
    assert ListsInv(k.s) && (Returns(k) ==> k.s.etat[Target(k)] != WAITING);
    hide SwitchStep, Target, Inv, Last, Calm, Tokens, Moved, Returns, Woken, InWindow, Settled, ListsInv, WellFormed;
    MovedTokens(k, SwitchStep(k).s, Target(k), Returns(k));
  }

  /** Calls that leave all blocked lists alone. */
  lemma QuietTokens<C, S>(k: Kernel<C, S>, ev: Event<C, S>)
    requires Calm(k) && Tokens(k) && Permitted(k, Call(ev)) && (ev.Create? || ev.Finish?)
    ensures CallStep(k, ev).Go? && (WellFormed(CallStep(k, ev).s.s) ==> Tokens(CallStep(k, ev).s))
  {
    hide Inv;
  }

  lemma DownTokens<C, S>(k: Kernel<C, S>, m: S)
    requires Calm(k) && Tokens(k) && Permitted(k, Call(Down(m))) && CallStep(k, Down(m)).Go?
    ensures WellFormed(CallStep(k, Down(m)).s.s) ==> Tokens(CallStep(k, Down(m)).s)
  {
    hide Inv;
  }

  function Only<C>(o: Option<C>): set<C> {
    if o.Some? then {o.value} else {}
  }

  /** `t` is `k` after the running context `c`, if there is one, has called sem_up on `m` and woken `b`, if
      anybody waited. */
  predicate Upped<C(==), S(==)>(k: Kernel<C, S>, t: Kernel<C, S>, m: S, c: Option<C>, b: Option<C>) {
    && m in k.s.sems && t.s.sems.Keys == k.s.sems.Keys
    && (forall x :: x in k.s.sems && x != m ==> t.s.sems[x] == k.s.sems[x])
    && (forall y :: y in t.s.sems[m].blocked ==> y in k.s.sems[m].blocked && b != Some(y))
    && t.s.sems[m].holders == k.s.sems[m].holders - Only(c) + Only(b)
    && t.calling == k.calling
    && t.inside == (if c.Some? then k.inside - {(c.value, m)} else k.inside)
    && t.s.etat == (if b.Some? then k.s.etat[b.value := ACTIVABLE] else k.s.etat)
  }

  function UpCaller<C, S>(s: Sched<C, S>): Option<C>
    requires WellFormed(s)
  {
    if s.running then Some(s.ring[0]) else None
  }

  function UpWakes<C, S>(s: Sched<C, S>, m: S): Option<C>
    requires m in s.sems
  {
    if s.sems[m].val < 0 && s.sems[m].blocked != [] then Some(s.sems[m].blocked[0]) else None
  }

  lemma UpShape<C, S>(k: Kernel<C, S>, m: S, t: Kernel<C, S>)
    requires Inv(k.s) && Permitted(k, Call(Up(m))) && CallStep(k, Up(m)) == Go(t)
    ensures UpWakes(k.s, m).Some? ==> k.s.running
    ensures Upped(k, t, m, UpCaller(k.s), UpWakes(k.s, m))
  {
    var q := k.s.sems[m];
    if q.blocked != [] { FirstWaits(k.s, m); FirstGone(q.blocked); }
    NoneWaits(k.s, m);
    hide Inv, InWindow, WellFormed;
  }

  lemma NoneWaits<C, S>(s: Sched<C, S>, m: S)
    requires Inv(s) && m in s.sems
    ensures s.sems[m].val >= 0 ==> s.sems[m].blocked == []
  {
    assert CountInv(s.sems[m]);
    hide RingInv, ListsInv;
  }

  lemma FirstWaits<C, S>(s: Sched<C, S>, m: S)
    requires Inv(s) && m in s.sems && s.sems[m].blocked != []
    ensures s.running && Distinct(s.sems[m].blocked)
    ensures s.sems[m].blocked[0] in s.etat && s.etat[s.sems[m].blocked[0]] == WAITING
  {
    var b := s.sems[m].blocked[0];
    assert b in s.sems[m].blocked && s.etat[b] == WAITING;
  }

  lemma FirstGone<T>(b: seq<T>)
    requires b != [] && Distinct(b)
    ensures forall y :: y in b[1..] ==> y in b && y != b[0]
  {
  }

  lemma UppedTokens<C, S>(k: Kernel<C, S>, t: Kernel<C, S>, m: S, c: Option<C>, b: Option<C>)
    requires WellFormed(k.s) && Tokens(k) && Upped(k, t, m, c, b)
    requires c.Some? ==> c.value !in k.calling
    requires b.Some? ==> CallsOn(k, b.value, m)
    requires b.Some? ==> forall x :: x in k.s.sems && x != m ==> b.value !in k.s.sems[x].blocked
    ensures (forall x, y :: x in t.s.sems && y in t.s.sems[x].blocked ==> CallsOn(t, y, x))
    ensures (forall y :: y in t.calling ==> CallOk(t, y))
    ensures TokenLaw(t)
  {
    hide WellFormed, GrantsInv, Settled;
    forall y | y in t.calling ensures CallOk(t, y) {
      assert CallOk(k, y);
    }
  }

  lemma UppedGrants<C, S>(k: Kernel<C, S>, t: Kernel<C, S>, m: S, c: Option<C>, b: Option<C>)
    requires GrantsInv(k) && Upped(k, t, m, c, b) && (b.Some? ==> CallsOn(k, b.value, m))
    ensures GrantsInv(t)
  {
    forall x, y | x in t.s.sems && y in t.s.sems[x].holders ensures Granted(t, y, x) {
      if y in k.s.sems[x].holders { assert Granted(k, y, x); }
    }
  }

  lemma UpTokens<C, S>(k: Kernel<C, S>, m: S)
    requires Calm(k) && Tokens(k) && Permitted(k, Call(Up(m))) && CallStep(k, Up(m)).Go?
    ensures WellFormed(CallStep(k, Up(m)).s.s) ==> Tokens(CallStep(k, Up(m)).s)
  {
    var s, t := k.s, CallStep(k, Up(m)).s;
    UpShape(k, m, t);
    var c, b := UpCaller(s), UpWakes(s, m);
    assert c.Some? ==> c.value !in k.calling;
    if b.Some? {
      assert b.value in s.sems[m].blocked;
      assert forall x :: x in s.sems && x != m ==> b.value !in s.sems[x].blocked;
    }
    assert t.s.running == s.running && t.s.ring == s.ring && t.windows == k.windows;
    hide Inv, Upped, CallStep, TokenLaw, GrantsInv, CallOk;
    UppedTokens(k, t, m, c, b);
    UppedGrants(k, t, m, c, b);
    assert t.calling == k.calling by { UppedCalling(k, t, m, c, b); }
  }

  lemma UppedCalling<C, S>(k: Kernel<C, S>, t: Kernel<C, S>, m: S, c: Option<C>, b: Option<C>)
    requires Upped(k, t, m, c, b)
    ensures t.calling == k.calling
  {
  }

  /** A context that is still blocked when it is switched to has a switch of its own to go on with. */
  lemma SwitchCalm<C, S>(k: Kernel<C, S>)
    requires Calm(k) && Tokens(k) && InWindow(k) && SwitchStep(k).Go? && Woken(k, Switch)
    ensures Calm(SwitchStep(k).s)
  {
    SwitchExact(k);
    SwitchMoves(k);
    var t := SwitchStep(k).s;
    var x := Target(k);
    if k.s.etat[x] == WAITING {
      assert OnList(k.s.sems, x);
      var m :| m in k.s.sems && x in k.s.sems[m].blocked;
      assert CallsOn(k, x, m);
      assert Open(t.windows, x) || x in t.due;
    }
    hide Inv, SwitchCtx, Last, CallsInv, TokenLaw, GrantsInv;
  }

  lemma CallCalm<C, S>(k: Kernel<C, S>, ev: Event<C, S>)
    requires Calm(k) && Permitted(k, Call(ev)) && CallStep(k, ev).Go?
    ensures !StaleCall(k.s, ev) && Calm(CallStep(k, ev).s)
  {
    DoExact(k, Call(ev));
    assert WellFormed(CallStep(k, ev).s.s);
    hide Inv, WindowsInv;
  }

  lemma CalmStep<C, S>(k: Kernel<C, S>, a: Act<C, S>)
    requires Calm(k) && Tokens(k) && Permitted(k, a) && Do(k, a).Go? && Woken(k, a)
    ensures Calm(Do(k, a).s) && !Stale(k, a)
  {
    match a
    case Choose(tick) =>
      ChooseKeeps(k, tick);
      ChooseSettles(k, tick);
      hide Inv, ChooseStep, Tokens;
    case Switch => SwitchCalm(k);
    case Call(ev) => CallCalm(k, ev);
  }

  /** Wherever the ticks fall, an act keeps lists, calls, tokens and the contexts inside their semaphores in
      step, unless it lets a context that is still blocked return from sem_down. */
  lemma TokensStep<C, S>(k: Kernel<C, S>, a: Act<C, S>)
    requires Calm(k) && Tokens(k) && Permitted(k, a) && Do(k, a).Go? && Woken(k, a)
    ensures Calm(Do(k, a).s) && Tokens(Do(k, a).s) && !Stale(k, a)
  {
    CalmStep(k, a);
    assert WellFormed(Do(k, a).s.s);
    hide Inv, Calm, Tokens;
    match a
    case Choose(tick) => ChooseTokens(k, tick);
    case Switch => SwitchTokens(k);
    case Call(Create(_)) => QuietTokens(k, a.ev);
    case Call(Finish) => QuietTokens(k, a.ev);
    case Call(Down(m)) => DownTokens(k, m);
    case Call(Up(m)) => UpTokens(k, m);
  }

  predicate AllWoken<C(==), S(==)>(tr: seq<Kernel<C, S>>, acts: seq<Act<C, S>>, n: nat)
    requires Preemption.IsRun(tr, acts) && n <= |acts|
  {
    forall i :: 0 <= i < n ==> Woken(tr[i], acts[i])
  }

  lemma {:induction false} WokenRun<C, S>(tr: seq<Kernel<C, S>>, acts: seq<Act<C, S>>, i: nat)
    requires Preemption.IsRun(tr, acts) && Calm(tr[0]) && Tokens(tr[0]) && i <= |acts| && AllWoken(tr, acts, i)
    ensures Calm(tr[i]) && Tokens(tr[i]) && NoStale(tr, acts, i)
  {
    if i > 0 {
      var j := i - 1;
      ActAt(tr, acts, j);
      assert Woken(tr[j], acts[j]);
      hide Calm, Tokens, Do, Permitted, Woken, Stale;
      WokenRun(tr, acts, j);
      TokensStep(tr[j], acts[j]);
    }
  }

  // ---- What fresh switches are for --------------------------------------------------------------

  predicate AllFresh<C(==), S(==)>(tr: seq<Kernel<C, S>>, acts: seq<Act<C, S>>, n: nat)
    requires Preemption.IsRun(tr, acts) && n <= |acts|
  {
    forall i :: 0 <= i < n ==> Fresh(tr[i], acts[i])
  }

  lemma FreshWoken<C, S>(k: Kernel<C, S>, a: Act<C, S>)
    requires WellFormed(k.s) && Permitted(k, a) && Fresh(k, a)
    ensures Woken(k, a)
  {
    hide Permitted, WellFormed;
  }

  lemma {:induction false} FreshRun<C, S>(tr: seq<Kernel<C, S>>, acts: seq<Act<C, S>>, i: nat)
    requires Preemption.IsRun(tr, acts) && Sound(tr[0]) && Tokens(tr[0]) && i <= |acts| && AllFresh(tr, acts, i)
    ensures Sound(tr[i]) && Tokens(tr[i])
  {
    if i > 0 {
      ActAt(tr, acts, i - 1);
      assert Fresh(tr[i - 1], acts[i - 1]);
      hide Sound, Calm, Tokens, Do, Permitted, Fresh;
      FreshRun(tr, acts, i - 1);
      FreshWoken(tr[i - 1], acts[i - 1]);
      SoundCalm(tr[i - 1]);
      SoundStep(tr[i - 1], acts[i - 1]);
      TokensStep(tr[i - 1], acts[i - 1]);
    }
  }

  /** TERMINATED and freed are not left. */
  predicate LifeKept<C(==), S>(s: Sched<C, S>, t: Sched<C, S>) {
    && (forall c :: c in s.etat && s.etat[c] == TERMINATED ==> c in t.etat && t.etat[c] == TERMINATED)
    && s.freed <= t.freed
  }

  lemma ChooseLife<C, S>(k: Kernel<C, S>, tick: bool)
    requires WellFormed(k.s) && ChooseStep(k, tick).Go?
    ensures LifeKept(k.s, ChooseStep(k, tick).s.s)
  {
    if k.s.running {
      WalkFound(k.s, 1);
      assert ChooseStep(k, tick).s.s.etat == k.s.etat;
      assert k.s.freed <= ChooseStep(k, tick).s.s.freed;
      hide WellFormed, Chosen, ChooseStep;
    }
  }

  lemma SwitchLife<C, S>(k: Kernel<C, S>)
    requires WellFormed(k.s) && InWindow(k) && SwitchStep(k).Go?
    ensures LifeKept(k.s, SwitchStep(k).s.s)
  {
    hide Target, IndexOf, Distinct;
  }

  lemma CallLife<C, S>(k: Kernel<C, S>, ev: Event<C, S>)
    requires WellFormed(k.s) && Permitted(k, Call(ev)) && CallStep(k, ev).Go?
    ensures LifeKept(k.s, CallStep(k, ev).s.s) <==> !Revives(k, Call(ev))
  {
    hide InWindow;
    match ev
    case Create(_) =>
    case Finish =>
    case Down(_) =>
    case Up(_) =>
  }

  /** The running context has returned, and blocks on a semaphore; or a context that has returned is on the list
      of a semaphore, and sem_up wakes it. */
  predicate Revives<C, S>(k: Kernel<C, S>, a: Act<C, S>)
    requires WellFormed(k.s) && Permitted(k, a)
  {
    || (a.Call? && Blocks(k.s, a.ev) && k.s.etat[k.s.ring[0]] == TERMINATED)
    || (a.Call? && a.ev.Up? && UpWakes(k.s, a.ev.m).Some? && UpWakes(k.s, a.ev.m).value in k.s.etat
        && k.s.etat[UpWakes(k.s, a.ev.m).value] == TERMINATED)
  }

  /** A freed context stays freed; an act takes a context out of TERMINATED exactly when it is a sem_down of
      that context that blocks, or a sem_up that wakes it. */
  lemma LifeExact<C, S>(k: Kernel<C, S>, a: Act<C, S>)
    requires WellFormed(k.s) && Permitted(k, a) && Do(k, a).Go?
    ensures LifeKept(k.s, Do(k, a).s.s) <==> !Revives(k, a)
  {
    hide WellFormed, ChooseStep, SwitchStep, CallStep, LifeKept, InWindow;
    match a
    case Choose(tick) => ChooseLife(k, tick);
    case Switch => SwitchLife(k);
    case Call(ev) => CallLife(k, ev);
  }

  /** As long as the lists hold WAITING contexts, only the first can happen, and only to a context that goes on
      after it has returned. */
  lemma SoundAlive<C, S>(k: Kernel<C, S>, a: Act<C, S>)
    requires Sound(k) && Permitted(k, a)
    ensures !Revives(k, a)
  {
    if a.Call? && a.ev.Up? && UpWakes(k.s, a.ev.m).Some? {
      FirstWaits(k.s, a.ev.m);
    }
    hide Inv;
  }

  predicate LifeAt<C(==), S>(tr: seq<Kernel<C, S>>, i: nat)
    requires i + 1 < |tr|
  {
    LifeKept(tr[i].s, tr[i + 1].s)
  }

  /** What no single act takes out of TERMINATED, no stretch of the run does. */
  lemma {:induction false} LifeChain<C, S>(tr: seq<Kernel<C, S>>, i: nat, j: nat)
    requires forall a :: 0 <= a < |tr| - 1 ==> LifeAt(tr, a)
    requires i <= j < |tr|
    ensures LifeKept(tr[i].s, tr[j].s)
    decreases j
  {
    if i < j {
      var b := j - 1;
      LifeChain(tr, i, b);
      assert LifeAt(tr, b);
      LifeTrans(tr[i].s, tr[b].s, tr[j].s);
    }
  }

  /** Over every run, wherever the ticks fall and whatever they break, TERMINATED and freed are never left exactly
      when no context that has returned blocks on a semaphore or is woken by sem_up. */
  lemma LifeRunExact<C, S>(tr: seq<Kernel<C, S>>, acts: seq<Act<C, S>>)
    requires Preemption.IsRun(tr, acts)
    ensures (forall i, j :: 0 <= i <= j < |tr| ==> LifeKept(tr[i].s, tr[j].s)) <==>
            (forall i :: 0 <= i < |acts| ==> !Revives(tr[i], acts[i]))
  {
    hide Do, Permitted, Revives, LifeKept;
    forall i | 0 <= i < |acts| ensures LifeAt(tr, i) <==> !Revives(tr[i], acts[i]) {
      ActAt(tr, acts, i);
      LifeExact(tr[i], acts[i]);
    }
    if forall i :: 0 <= i < |acts| ==> !Revives(tr[i], acts[i]) {
      forall i, j | 0 <= i <= j < |tr| ensures LifeKept(tr[i].s, tr[j].s) {
        LifeChain(tr, i, j);
      }
    }
    if forall i, j :: 0 <= i <= j < |tr| ==> LifeKept(tr[i].s, tr[j].s) {
      forall i | 0 <= i < |acts| ensures !Revives(tr[i], acts[i]) {
        assert LifeKept(tr[i].s, tr[i + 1].s);
        assert LifeAt(tr, i);
      }
    }
  }

  predicate Scheduled<C(==), S(==)>(t: Sched<C, S>) {
    WellFormed(t) && t.running && Current(t) !in t.freed && t.etat[Current(t)] == ACTIVABLE
  }

  /** The joint invariant and the law of tokens hold in every state (so an entry point is called at most once),
      TERMINATED and freed are never left, and every switch leaves an ACTIVABLE context running. */
  predicate Kept<C(==), S(==)>(tr: seq<Kernel<C, S>>, acts: seq<Act<C, S>>)
    requires Preemption.IsRun(tr, acts)
  {
    && (forall i :: 0 <= i < |tr| ==> Inv(tr[i].s) && TokenLaw(tr[i]))
    && (forall i, j :: 0 <= i <= j < |tr| ==> LifeKept(tr[i].s, tr[j].s))
    && (forall i :: 0 <= i < |acts| && acts[i].Switch? ==> ScheduledAfter(tr, i))
  }

  predicate ScheduledAfter<C(==), S(==)>(tr: seq<Kernel<C, S>>, i: nat)
    requires i + 1 < |tr|
  {
    Scheduled(tr[i + 1].s)
  }

  /** Over every run, wherever the ticks fall: all that is kept exactly when every switch finds its target
      neither freed nor TERMINATED nor WAITING. */
  lemma PreemptionExact<C, S>(tr: seq<Kernel<C, S>>, acts: seq<Act<C, S>>)
    requires Preemption.IsRun(tr, acts) && Sound(tr[0]) && Tokens(tr[0])
    ensures Kept(tr, acts) <==> AllFresh(tr, acts, |acts|)
  {
    hide Inv, Sound, Tokens, Do, Permitted, Scheduled, LifeKept;
    if AllFresh(tr, acts, |acts|) {
      forall i | 0 <= i < |tr| ensures Inv(tr[i].s) && TokenLaw(tr[i]) {
        FreshRun(tr, acts, i);
        SoundParts(tr[i]);
      }
      forall i | 0 <= i < |tr| - 1 ensures LifeAt(tr, i) {
        FreshLifeAt(tr, acts, i);
      }
      forall i, j | 0 <= i <= j < |tr| ensures LifeKept(tr[i].s, tr[j].s) {
        LifeChain(tr, i, j);
      }
      forall i | 0 <= i < |acts| && acts[i].Switch? ensures ScheduledAfter(tr, i) {
        FreshRun(tr, acts, i);
        ActAt(tr, acts, i);
        SoundParts(tr[i]);
        SwitchScheduled(tr[i]);
      }
    }
    if Kept(tr, acts) {
      forall i | 0 <= i < |acts| ensures Fresh(tr[i], acts[i]) {
        ActAt(tr, acts, i);
        if acts[i].Switch? {
          SoundParts(tr[0]);
          KernelSoFar(tr, acts, i);
          assert ScheduledAfter(tr, i);
          SwitchScheduled(tr[i]);
        }
      }
    }
  }

  lemma SoundParts<C, S>(k: Kernel<C, S>)
    requires Sound(k)
    ensures KernelInv(k) && WellFormed(k.s) && (Tokens(k) ==> TokenLaw(k))
  {
  }

  lemma SwitchScheduled<C, S>(k: Kernel<C, S>)
    requires KernelInv(k) && WellFormed(k.s) && Permitted(k, Switch) && Do(k, Switch).Go?
    ensures Scheduled(Do(k, Switch).s.s) <==> Fresh(k, Switch)
  {
    SwitchExact(k);
    SwitchMoves(k);
    hide Inv, SwitchStep;
  }

  lemma FreshLifeAt<C, S>(tr: seq<Kernel<C, S>>, acts: seq<Act<C, S>>, i: nat)
    requires Preemption.IsRun(tr, acts) && Sound(tr[0]) && Tokens(tr[0]) && AllFresh(tr, acts, |acts|)
    requires i < |acts|
    ensures LifeAt(tr, i)
  {
    hide Sound, Tokens, Do, Permitted, Fresh, Inv, LifeKept;
    FreshPrefix(tr, acts, |acts|, i);
    FreshRun(tr, acts, i);
    ActAt(tr, acts, i);
    SoundLife(tr[i], acts[i]);
  }

  lemma FreshPrefix<C, S>(tr: seq<Kernel<C, S>>, acts: seq<Act<C, S>>, n: nat, i: nat)
    requires Preemption.IsRun(tr, acts) && n <= |acts| && AllFresh(tr, acts, n) && i <= n
    ensures AllFresh(tr, acts, i)
  {
    hide Fresh, Permitted, Do;
  }

  lemma LifeTrans<C, S>(s: Sched<C, S>, t: Sched<C, S>, u: Sched<C, S>)
    requires LifeKept(s, t) && LifeKept(t, u)
    ensures LifeKept(s, u)
  {
  }

  lemma SoundLife<C, S>(k: Kernel<C, S>, a: Act<C, S>)
    requires Sound(k) && Permitted(k, a) && Do(k, a).Go?
    ensures LifeKept(k.s, Do(k, a).s.s)
  {
    SoundAlive(k, a);
    LifeExact(k, a);
    hide Inv, Do, Revives;
  }

  // ---- Conservation and mutual exclusion --------------------------------------------------------

  lemma BootSound<C, S>(initial: map<S, nat>)
    requires forall x :: x in initial ==> initial[x] < 0x8000_0000
    ensures Sound(Preemption.Boot<C, S>(initial)) && Tokens(Preemption.Boot<C, S>(initial))
  {
    BootInv<C, S>(initial);
  }

  lemma ChooseSems<C, S>(k: Kernel<C, S>, tick: bool)
    requires WellFormed(k.s) && ChooseStep(k, tick).Go?
    ensures ChooseStep(k, tick).s.s.sems == k.s.sems
  {
    hide Walk, Relink;
  }

  lemma SwitchSems<C, S>(k: Kernel<C, S>)
    requires WellFormed(k.s) && InWindow(k) && SwitchStep(k).Go?
    ensures SwitchStep(k).s.s.sems == k.s.sems
  {
    hide Target, WellFormed;
  }

  lemma CallSems<C, S>(k: Kernel<C, S>, ev: Event<C, S>)
    requires WellFormed(k.s) && Permitted(k, Call(ev)) && CallStep(k, ev).Go? && CountsInv(k.s.sems)
    ensures CountsInv(CallStep(k, ev).s.s.sems)
    ensures forall m :: m in k.s.sems ==>
              m in CallStep(k, ev).s.s.sems && CallStep(k, ev).s.s.sems[m].initial == k.s.sems[m].initial
  {
    StepCounts(k.s, ev);
    hide CountsInv, WellFormed, InWindow;
  }

  /** What an act does to the semaphores, whatever else has gone wrong. */
  lemma SemsStep<C, S>(k: Kernel<C, S>, a: Act<C, S>)
    requires WellFormed(k.s) && Permitted(k, a) && Do(k, a).Go? && CountsInv(k.s.sems)
    ensures CountsInv(Do(k, a).s.s.sems)
    ensures forall m :: m in k.s.sems ==>
              m in Do(k, a).s.s.sems && Do(k, a).s.s.sems[m].initial == k.s.sems[m].initial
    ensures !a.Call? ==> Do(k, a).s.s.sems == k.s.sems
  {
    hide CountsInv, WellFormed, ChooseStep, SwitchStep, CallStep;
    match a
    case Choose(tick) => ChooseSems(k, tick);
    case Switch => SwitchSems(k);
    case Call(ev) => CallSems(k, ev);
  }

  lemma {:induction false} SemsRun<C, S>(tr: seq<Kernel<C, S>>, acts: seq<Act<C, S>>, i: nat)
    requires Preemption.IsRun(tr, acts) && CountsInv(tr[0].s.sems) && i <= |acts|
    ensures CountsInv(tr[i].s.sems)
    ensures forall m :: m in tr[0].s.sems ==>
              m in tr[i].s.sems && tr[i].s.sems[m].initial == tr[0].s.sems[m].initial
  {
    if i > 0 {
      hide CountsInv, Do, Permitted;
      SemsRun(tr, acts, i - 1);
      ActAt(tr, acts, i - 1);
      SemsStep(tr[i - 1], acts[i - 1]);
    }
  }

  /** Conservation over every run, wherever the ticks fall and whatever they break. */
  lemma Conservation<C, S>(initial: map<S, nat>, tr: seq<Kernel<C, S>>, acts: seq<Act<C, S>>, i: nat, m: S)
    requires forall x :: x in initial ==> initial[x] < 0x8000_0000
    requires Preemption.IsRun(tr, acts) && tr[0] == Preemption.Boot(initial) && i <= |acts| && m in initial
    ensures m in tr[i].s.sems && Conserved(tr[i].s.sems[m], initial[m])
  {
    assert CountsInv(tr[0].s.sems);
    SemsRun(tr, acts, i);
    assert CountInv(tr[i].s.sems[m]);
  }

  /** On semaphore `m` contexts alternate sem_down and sem_up, as far as they can tell. */
  predicate TakesTurns<C(==), S(==)>(k: Kernel<C, S>, a: Act<C, S>, m: S)
    requires WellFormed(k.s)
  {
    && (a == Call(Down(m)) ==> k.s.running && (k.s.ring[0], m) !in k.inside)
    && (a == Call(Up(m)) ==> k.s.running && (k.s.ring[0], m) in k.inside)
  }

  /** On every semaphore. */
  predicate InTurn<C(==), S(==)>(k: Kernel<C, S>, a: Act<C, S>)
    requires WellFormed(k.s)
  {
    a.Call? && (a.ev.Down? || a.ev.Up?) ==> TakesTurns(k, a, a.ev.m)
  }

  lemma TurnsAlternate<C, S>(k: Kernel<C, S>, ev: Event<C, S>, m: S)
    requires Calm(k) && Tokens(k) && Permitted(k, Call(ev)) && m in k.s.sems && TakesTurns(k, Call(ev), m)
    ensures Alternates(k.s, ev, m)
  {
    hide Inv;
    assert k.s.running && k.s.ring[0] in k.s.sems[m].holders ==> Granted(k, k.s.ring[0], m);
  }

  lemma HoldersAct<C, S>(k: Kernel<C, S>, a: Act<C, S>, m: S)
    requires Calm(k) && Tokens(k) && Permitted(k, a) && Do(k, a).Go?
    requires m in k.s.sems && TakesTurns(k, a, m) && HoldersInv(k.s.sems[m])
    ensures m in Do(k, a).s.s.sems && HoldersInv(Do(k, a).s.s.sems[m])
  {
    SemsStep(k, a);
    if a.Call? {
      TurnsAlternate(k, a.ev, m);
      hide Inv, HoldersInv, Tokens;
      HoldersStep(k.s, a.ev, m);
    } else {
      hide Do, Inv, HoldersInv;
    }
  }

  /** The contexts that have returned from sem_down on `m`, and not called sem_up since. */
  function Insiders<C(!new), S>(k: Kernel<C, S>, m: S): set<C> {
    set p | p in k.inside && p.1 == m :: p.0
  }

  /** Mutual exclusion, wherever the ticks fall: when no context that is still blocked returns from sem_down,
      and contexts alternate sem_down and sem_up on a semaphore, at most its initial value of them are between
      the two. */
  lemma {:induction false} PreemptiveExclusion<C(!new), S>(initial: map<S, nat>, tr: seq<Kernel<C, S>>,
                                                           acts: seq<Act<C, S>>, i: nat, m: S)
    requires forall x :: x in initial ==> initial[x] < 0x8000_0000
    requires Preemption.IsRun(tr, acts) && tr[0] == Preemption.Boot(initial) && i <= |acts| && m in initial
    requires AllWoken(tr, acts, i) && (forall j :: 0 <= j < i ==> TakesTurns(tr[j], acts[j], m))
    ensures |Insiders(tr[i], m)| <= initial[m]
    ensures initial[m] == 1 ==>
              forall a, b :: (a, m) in tr[i].inside && (b, m) in tr[i].inside ==> a == b
  {
    BootSound<C, S>(initial);
    SoundCalm(tr[0]);
    WokenRun(tr, acts, i);
    Conservation(initial, tr, acts, i, m);
    HoldersWoken(initial, tr, acts, i, m);
    var h := tr[i].s.sems[m].holders;
    assert Insiders(tr[i], m) <= h;
    SubsetSize(Insiders(tr[i], m), h);
    hide Preemption.IsRun, Calm, Sound, Tokens, AllWoken, Preemption.Boot, TakesTurns;
    forall a, b | (a, m) in tr[i].inside && (b, m) in tr[i].inside && a != b ensures |Insiders(tr[i], m)| >= 2 {
      assert {a, b} <= Insiders(tr[i], m);
      SubsetSize({a, b}, Insiders(tr[i], m));
    }
  }

  lemma {:induction false} HoldersWoken<C, S>(initial: map<S, nat>, tr: seq<Kernel<C, S>>, acts: seq<Act<C, S>>,
                                              i: nat, m: S)
    requires forall x :: x in initial ==> initial[x] < 0x8000_0000
    requires Preemption.IsRun(tr, acts) && tr[0] == Preemption.Boot(initial) && i <= |acts| && m in initial
    requires AllWoken(tr, acts, i) && (forall j :: 0 <= j < i ==> TakesTurns(tr[j], acts[j], m))
    ensures m in tr[i].s.sems && HoldersInv(tr[i].s.sems[m])
  {
    BootSound<C, S>(initial);
    SoundCalm(tr[0]);
    if i > 0 {
      hide Sound, Calm, Tokens, Do, Permitted, Woken, HoldersInv, TakesTurns;
      HoldersWoken(initial, tr, acts, i - 1, m);
      WokenRun(tr, acts, i - 1);
      ActAt(tr, acts, i - 1);
      HoldersAct(tr[i - 1], acts[i - 1], m);
    }
  }

  // ---- The law of tokens, exactly ---------------------------------------------------------------

  /** Nobody is blocked on a semaphore while holding a token of it. */
  predicate NoneWaitsInside<C(==), S(==)>(k: Kernel<C, S>) {
    forall m, c :: m in k.s.sems && c in k.s.sems[m].blocked ==> c !in k.s.sems[m].holders
  }

  /** A context that is still blocked and returns from sem_down has no token. */
  lemma BlockedCall<C, S>(k: Kernel<C, S>, x: C)
    requires Inv(k.s) && WellFormed(k.s) && CallsInv(k) && x in k.calling && x in k.s.etat && k.s.etat[x] == WAITING
    requires NoneWaitsInside(k)
    ensures k.calling[x] in k.s.sems && x !in k.s.sems[k.calling[x]].holders
  {
    assert OnList(k.s.sems, x);
    var m :| m in k.s.sems && x in k.s.sems[m].blocked;
    assert CallsOn(k, x, m);
    hide Inv;
  }

  /** A switch to a context that is still blocked, outside all its windows, lets its sem_down return without
      a token; no other switch breaks the law. */
  lemma SwitchLawExact<C, S>(k: Kernel<C, S>)
    requires KernelInv(k) && WellFormed(k.s) && Tokens(k) && InWindow(k) && SwitchStep(k).Go?
    requires NoneWaitsInside(k)
    ensures TokenLaw(SwitchStep(k).s) <==> Woken(k, Switch)
  {
    SwitchMoves(k);
    var t := SwitchStep(k).s;
    var x := Target(k);
    hide Inv, SwitchStep, Target, Last, InWindow, Returns, Settled, WellFormed, GrantsInv;
    if Returns(k) && k.s.etat[x] == WAITING {
      BlockedCall(k, x);
      assert (x, k.calling[x]) in t.inside;
    } else {
      assert Returns(k) ==> CallOk(k, x);
      hide CallsInv, CallOk;
      MovedLaw(k, t, x, Returns(k));
    }
  }

  lemma AllHolders<C, S>(initial: map<S, nat>, tr: seq<Kernel<C, S>>, acts: seq<Act<C, S>>, i: nat)
    requires forall x :: x in initial ==> initial[x] < 0x8000_0000
    requires Preemption.IsRun(tr, acts) && tr[0] == Preemption.Boot(initial) && i <= |acts|
    requires AllWoken(tr, acts, i) && (forall j :: 0 <= j < i ==> InTurn(tr[j], acts[j]))
    ensures NoneWaitsInside(tr[i])
  {
    SameSems(tr, acts, i);
    hide Do, Permitted, Woken;
    forall m | m in tr[i].s.sems ensures HoldersInv(tr[i].s.sems[m]) {
      assert m in initial;
      HoldersWoken(initial, tr, acts, i, m);
    }
  }

  lemma {:induction false} SameSems<C, S>(tr: seq<Kernel<C, S>>, acts: seq<Act<C, S>>, i: nat)
    requires Preemption.IsRun(tr, acts) && i <= |acts|
    ensures tr[i].s.sems.Keys == tr[0].s.sems.Keys
  {
    if i > 0 {
      SameSems(tr, acts, i - 1);
      ActAt(tr, acts, i - 1);
      SameKeys(tr[i - 1], acts[i - 1]);
    }
  }

  lemma SameKeys<C, S>(k: Kernel<C, S>, a: Act<C, S>)
    requires WellFormed(k.s) && Permitted(k, a) && Do(k, a).Go?
    ensures Do(k, a).s.s.sems.Keys == k.s.sems.Keys
  {
    match a
    case Choose(tick) => ChooseSems(k, tick);
    case Switch => SwitchSems(k);
    case Call(ev) =>
      hide WellFormed;
      if ev.Down? || ev.Up? {
        assert CallStep(k, ev).s.s.sems == k.s.sems[ev.m := CallStep(k, ev).s.s.sems[ev.m]];
      }
  }

  /** Over every run in which contexts alternate sem_down and sem_up, wherever the ticks fall: whoever is
      between the two was given a token, at all times, exactly when no context that is still blocked returns
      from sem_down. */
  lemma LawExact<C, S>(initial: map<S, nat>, tr: seq<Kernel<C, S>>, acts: seq<Act<C, S>>)
    requires forall x :: x in initial ==> initial[x] < 0x8000_0000
    requires Preemption.IsRun(tr, acts) && tr[0] == Preemption.Boot(initial)
    requires forall j :: 0 <= j < |acts| ==> InTurn(tr[j], acts[j])
    ensures (forall i :: 0 <= i < |tr| ==> TokenLaw(tr[i])) <==> AllWoken(tr, acts, |acts|)
  {
    BootSound<C, S>(initial);
    SoundCalm(tr[0]);
    hide Sound, Calm, Tokens, Do, Permitted, Woken, TokenLaw, InTurn;
    if AllWoken(tr, acts, |acts|) {
      forall i | 0 <= i < |tr| ensures TokenLaw(tr[i]) {
        WokenRun(tr, acts, i);
        CalmParts(tr[i]);
      }
    }
    if forall i :: 0 <= i < |tr| ==> TokenLaw(tr[i]) {
      WokenSoFar(initial, tr, acts, |acts|);
    }
  }

  lemma CalmParts<C, S>(k: Kernel<C, S>)
    requires Calm(k)
    ensures KernelInv(k) && WellFormed(k.s) && (Tokens(k) ==> TokenLaw(k))
  {
  }

  lemma WokenNext<C, S>(initial: map<S, nat>, tr: seq<Kernel<C, S>>, acts: seq<Act<C, S>>, j: nat)
    requires forall x :: x in initial ==> initial[x] < 0x8000_0000
    requires Preemption.IsRun(tr, acts) && tr[0] == Preemption.Boot(initial) && j < |acts|
    requires (forall i :: 0 <= i < |acts| ==> InTurn(tr[i], acts[i])) && AllWoken(tr, acts, j)
    requires TokenLaw(tr[j + 1])
    ensures Woken(tr[j], acts[j])
  {
    BootSound<C, S>(initial);
    SoundCalm(tr[0]);
    hide Sound, Calm, Tokens, Do, Permitted, Woken, TokenLaw, InTurn, NoneWaitsInside;
    WokenRun(tr, acts, j);
    AllHolders(initial, tr, acts, j);
    ActAt(tr, acts, j);
    LawStep(tr[j], acts[j]);
  }

  lemma {:induction false} WokenSoFar<C, S>(initial: map<S, nat>, tr: seq<Kernel<C, S>>, acts: seq<Act<C, S>>, i: nat)
    requires forall x :: x in initial ==> initial[x] < 0x8000_0000
    requires Preemption.IsRun(tr, acts) && tr[0] == Preemption.Boot(initial) && i <= |acts|
    requires forall j :: 0 <= j < |acts| ==> InTurn(tr[j], acts[j])
    requires forall j :: 0 <= j < |tr| ==> TokenLaw(tr[j])
    ensures AllWoken(tr, acts, i)
  {
    hide Do, Permitted, Woken, TokenLaw, InTurn;
    if i > 0 {
      var j := i - 1;
      WokenSoFar(initial, tr, acts, j);
      WokenNext(initial, tr, acts, j);
    }
  }

  lemma LawStep<C, S>(k: Kernel<C, S>, a: Act<C, S>)
    requires Calm(k) && Tokens(k) && Permitted(k, a) && Do(k, a).Go? && NoneWaitsInside(k) && TokenLaw(Do(k, a).s)
    ensures Woken(k, a)
  {
    if a.Switch? {
      CalmParts(k);
      SwitchLawExact(k);
    }
    hide Calm, Tokens, TokenLaw;
  }
}

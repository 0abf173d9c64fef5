/** Bounded waiting with ticks anywhere. A switch to a target chosen long ago can pass a context that was
    created, or became runnable, since. It cannot happen more often than there are windows open when that
    context begins to wait. */
module PreemptionWaiting {
  import opened Collections
  import opened SchedulerSpec
  import opened SchedulerInvariant
  import opened SchedulerTheorems
  import opened Preemption
  import opened PreemptionTheorems

  // ---- The order of the ring --------------------------------------------------------------------

  /** From position `a`, position `b` is met before position `c`. */
  predicate Clockwise(a: int, b: int, c: int) {
    a < b < c || b < c < a || c < a < b
  }

  /** The caller of the window, on its way round the ring, meets `x` before its target. */
  predicate Passes<C(==)>(r: seq<C>, p: (C, C), x: C) {
    && p.0 in r && p.1 in r && x in r && p.0 != x
    && (p.1 == p.0 || Clockwise(IndexOf(r, p.0), IndexOf(r, x), IndexOf(r, p.1)))
  }

  /** The elements of `r'` that are in `r` come in the same order in both. */
  predicate Orderly<C(==)>(r: seq<C>, r': seq<C>) {
    forall y, z :: y in r && y in r' && z in r && z in r' ==>
      (IndexOf(r, y) < IndexOf(r, z) <==> IndexOf(r', y) < IndexOf(r', z))
  }

  lemma IndexInjective<C>(r: seq<C>, y: C, z: C)
    requires y in r && z in r
    ensures IndexOf(r, y) == IndexOf(r, z) <==> y == z
  {
    assert r[IndexOf(r, y)] == y && r[IndexOf(r, z)] == z;
  }

  lemma OrderlyPasses<C>(r: seq<C>, r': seq<C>, p: (C, C), x: C)
    requires Orderly(r, r') && p.0 in r && p.1 in r && x in r && Passes(r', p, x)
    ensures Passes(r, p, x)
  {
  }

  lemma {:induction false} IndexConcat<C>(a: seq<C>, b: seq<C>, y: C)
    requires y in a + b
    ensures IndexOf(a + b, y) == if y in a then IndexOf(a, y) else |a| + IndexOf(b, y)
  {
    if a == [] {
      assert a + b == b;
    } else {
      assert (a + b)[0] == a[0] && (a + b)[1..] == a[1..] + b;
      assert a == [a[0]] + a[1..];
      if a[0] != y {
        IndexConcat(a[1..], b, y);
      }
    }
  }

  lemma IndexCons<C>(c: C, w: seq<C>, y: C)
    requires y in [c] + w && (y == c || y in w)
    ensures IndexOf([c] + w, y) == if y == c then 0 else 1 + IndexOf(w, y)
  {
    IndexConcat([c], w, y);
  }

  lemma {:induction false} RelinkOrder<C>(w: seq<C>, etat: map<C, Etat>, y: C, z: C)
    requires (forall c :: c in w ==> c in etat) && Distinct(w) && y in Relink(w, etat) && z in Relink(w, etat)
    ensures y in w && z in w
    ensures IndexOf(w, y) < IndexOf(w, z) <==> IndexOf(Relink(w, etat), y) < IndexOf(Relink(w, etat), z)
    decreases |w|, 0
  {
    RelinkKeeps(w, etat);
    if etat[w[0]] != TERMINATED {
      OneKept(w, etat, w[0], w[1..], y, z);
    } else if |w| >= 2 {
      var v := [w[1]] + w[2..];
      assert w == [w[0]] + v && v[1..] == w[2..];
      DistinctParts(w, 1);
      assert w[1..] == v;
      assert w[0] !in v;
      RelinkKeeps(w[2..], etat);
      assert y in v && z in v;
      hide Distinct, IndexOf;
      OneMore(w, v, y, z);
      OneKept(v, etat, w[1], w[2..], y, z);
    }
  }

  lemma OneMore<C>(w: seq<C>, v: seq<C>, y: C, z: C)
    requires w != [] && w == [w[0]] + v && w[0] !in v && y in v && z in v
    ensures IndexOf(w, y) < IndexOf(w, z) <==> IndexOf(v, y) < IndexOf(v, z)
  {
    IndexCons(w[0], v, y);
    IndexCons(w[0], v, z);
  }

  lemma {:induction false} OneKept<C>(v: seq<C>, etat: map<C, Etat>, c: C, w: seq<C>, y: C, z: C)
    requires v == [c] + w && Distinct(v) && (forall x :: x in v ==> x in etat)
    requires y in [c] + Relink(w, etat) && z in [c] + Relink(w, etat)
    ensures y in v && z in v
    ensures IndexOf(v, y) < IndexOf(v, z) <==>
            IndexOf([c] + Relink(w, etat), y) < IndexOf([c] + Relink(w, etat), z)
    decreases |w|, 1
  {
    DistinctParts(v, 1);
    assert v[1..] == w;
    RelinkKeeps(w, etat);
    var l := Relink(w, etat);
    if y != c && z != c {
      RelinkOrder(w, etat, y, z);
    }
    hide Relink, Distinct;
    assert forall x :: x in [c] + l ==> x == c || x in l;
    IndexCons(c, w, y);
    IndexCons(c, w, z);
    IndexCons(c, l, y);
    IndexCons(c, l, z);
  }

  lemma RelinkShorter<C>(w: seq<C>, etat: map<C, Etat>)
    requires forall c :: c in w ==> c in etat
    ensures |Relink(w, etat)| <= |w|
  {
  }

  /** The walk of yield keeps the order, and brings nearer what it has not passed. */
  lemma ChosenOrder<C, S>(s: Sched<C, S>, k: nat)
    requires WellFormed(s) && s.ring != [] && 1 <= k <= |s.ring|
    ensures Orderly(s.ring, Chosen(s, k).ring)
    ensures forall x :: x in s.ring[k..] ==>
              && x in s.ring && x in Chosen(s, k).ring
              && k <= IndexOf(s.ring, x) && IndexOf(Chosen(s, k).ring, x) <= IndexOf(s.ring, x)
  {
    var r := s.ring;
    var w := r[1..k];
    var l := Relink(w, s.etat);
    var b := r[k..];
    assert r == ([r[0]] + w) + b && Chosen(s, k).ring == ([r[0]] + l) + b;
    RelinkShorter(w, s.etat);
    DistinctParts(r, k);
    assert r[..k] == [r[0]] + w;
    DistinctParts([r[0]] + w, 1);
    assert ([r[0]] + w)[1..] == w && ([r[0]] + w)[..1] == [r[0]];
    RelinkKeeps(w, s.etat);
    hide Chosen;
    forall x | x in b
      ensures x in ([r[0]] + w) + b && k <= IndexOf(([r[0]] + w) + b, x)
      ensures x in ([r[0]] + l) + b && IndexOf(([r[0]] + l) + b, x) <= IndexOf(([r[0]] + w) + b, x)
    {
      IndexConcat([r[0]] + w, b, x);
      IndexConcat([r[0]] + l, b, x);
    }
    forall y, z | y in ([r[0]] + l) + b && z in ([r[0]] + l) + b
      ensures y in ([r[0]] + w) + b && z in ([r[0]] + w) + b
      ensures IndexOf(([r[0]] + w) + b, y) < IndexOf(([r[0]] + w) + b, z) <==>
              IndexOf(([r[0]] + l) + b, y) < IndexOf(([r[0]] + l) + b, z)
    {
      JoinedOrder(r[0], w, s.etat, b, y, z);
    }
  }

  lemma JoinedOrder<C>(c: C, w: seq<C>, etat: map<C, Etat>, b: seq<C>, y: C, z: C)
    requires (forall x :: x in w ==> x in etat) && Distinct([c] + w) && c in etat
    requires forall x :: x in b ==> x !in [c] + w
    requires y in ([c] + Relink(w, etat)) + b && z in ([c] + Relink(w, etat)) + b
    ensures y in ([c] + w) + b && z in ([c] + w) + b
    ensures IndexOf(([c] + w) + b, y) < IndexOf(([c] + w) + b, z) <==>
            IndexOf(([c] + Relink(w, etat)) + b, y) < IndexOf(([c] + Relink(w, etat)) + b, z)
  {
    var l := [c] + Relink(w, etat);
    DistinctParts([c] + w, 1);
    assert ([c] + w)[1..] == w;
    RelinkKeeps(w, etat);
    assert forall x :: x in l ==> x in [c] + w;
    IndexConcat([c] + w, b, y);
    IndexConcat([c] + w, b, z);
    IndexConcat(l, b, y);
    IndexConcat(l, b, z);
    if y in l && z in l {
      OneKept([c] + w, etat, c, w, y, z);
    }
  }

  function Moved(n: nat, m: nat, i: int): int {
    if i < n then m + i else i - n
  }

  lemma ClockwiseMoved(n: nat, m: nat, a: int, b: int, c: int)
    requires 0 <= a < n + m && 0 <= b < n + m && 0 <= c < n + m
    ensures Clockwise(Moved(n, m, a), Moved(n, m, b), Moved(n, m, c)) <==> Clockwise(a, b, c)
  {
  }

  lemma TurnIndex<C>(a: seq<C>, b: seq<C>, y: C)
    requires y in a + b && Distinct(a + b)
    ensures y in b + a && IndexOf(b + a, y) == Moved(|a|, |b|, IndexOf(a + b, y))
  {
    DistinctParts(a + b, |a|);
    assert (a + b)[..|a|] == a && (a + b)[|a|..] == b;
    IndexConcat(a, b, y);
    IndexConcat(b, a, y);
  }

  /** Reading the ring from another place. */
  lemma TurnPasses<C>(a: seq<C>, b: seq<C>, p: (C, C), x: C)
    requires Distinct(a + b) && x in a + b
    ensures Passes(b + a, p, x) <==> Passes(a + b, p, x)
  {
    assert forall y :: y in a + b <==> y in b + a;
    if p.0 in a + b && p.1 in a + b {
      TurnIndex(a, b, x);
      TurnIndex(a, b, p.0);
      TurnIndex(a, b, p.1);
      ClockwiseMoved(|a|, |b|, IndexOf(a + b, p.0), IndexOf(a + b, x), IndexOf(a + b, p.1));
      hide IndexOf, Distinct, Clockwise, Moved;
    }
  }

  /** A creation inserts. */
  lemma InsertOrder<C>(r: seq<C>, p: nat, c: C)
    requires Distinct(r) && c !in r && p <= |r|
    ensures Orderly(r, r[..p] + [c] + r[p..])
    ensures forall x :: x in r ==>
              x in r[..p] + [c] + r[p..] && IndexOf(r[..p] + [c] + r[p..], x) <= IndexOf(r, x) + 1
  {
    var a, b := r[..p], r[p..];
    DistinctParts(r, p);
    assert r == a + b && a + [c] + b == a + ([c] + b);
    forall x | x in r
      ensures x in a + ([c] + b)
      ensures IndexOf(a + ([c] + b), x) == if x in a then IndexOf(r, x) else IndexOf(r, x) + 1
      ensures x in a ==> IndexOf(r, x) < p
      ensures x !in a ==> IndexOf(r, x) >= p
    {
      IndexConcat(a, b, x);
      IndexConcat(a, [c] + b, x);
      if x !in a { IndexCons(c, b, x); }
    }
  }

  // ---- Windows that can pass --------------------------------------------------------------------

  /** `b` for each of the windows that would pass `x`. */
  ghost function Late<C>(r: seq<C>, w: seq<(C, C)>, x: C, b: nat): nat {
    if w == [] then 0 else Late(r, w[..|w| - 1], x, b) + if Passes(r, w[|w| - 1], x) then b else 0
  }

  lemma {:induction false} LateBound<C>(r: seq<C>, w: seq<(C, C)>, x: C, b: nat)
    ensures Late(r, w, x, b) <= |w| * b
  {
    if w != [] {
      LateBound(r, w[..|w| - 1], x, b);
      assert |w| * b == (|w| - 1) * b + b;
    }
  }

  lemma LateAppend<C>(r: seq<C>, w: seq<(C, C)>, p: (C, C), x: C, b: nat)
    ensures Late(r, w + [p], x, b) == Late(r, w, x, b) + if Passes(r, p, x) then b else 0
  {
    assert (w + [p])[..|w|] == w;
  }

  lemma {:induction false} LateMono<C>(r: seq<C>, r': seq<C>, w: seq<(C, C)>, x: C, b: nat)
    requires forall p :: p in w && Passes(r', p, x) ==> Passes(r, p, x)
    ensures Late(r', w, x, b) <= Late(r, w, x, b)
  {
    if w != [] {
      LateMono(r, r', w[..|w| - 1], x, b);
      assert w[|w| - 1] in w;
    }
  }

  lemma {:induction false} LateWithout<C>(r: seq<C>, w: seq<(C, C)>, i: nat, x: C, b: nat)
    requires i < |w|
    ensures Late(r, Without(w, i), x, b) == Late(r, w, x, b) - if Passes(r, w[i], x) then b else 0
  {
    if i == |w| - 1 {
      assert Without(w, i) == w[..|w| - 1];
    } else {
      assert Without(w, i) == Without(w[..|w| - 1], i) + [w[|w| - 1]];
      LateAppend(r, Without(w[..|w| - 1], i), w[|w| - 1], x, b);
      LateWithout(r, w[..|w| - 1], i, x, b);
    }
  }

  // ---- One act ----------------------------------------------------------------------------------

  /** An act that switches: before the first one, the yield that starts the first context. */
  predicate IsSwitch<C, S>(k: Kernel<C, S>, a: Act<C, S>) {
    a.Switch? || (a.Choose? && !k.s.running)
  }

  predicate IsCreate<C, S>(a: Act<C, S>) {
    a.Call? && a.ev.Create?
  }

  /** The distance of `x`, and `b` for each window that would pass it. */
  ghost function Delay<C, S>(k: Kernel<C, S>, x: C, b: nat): nat
    requires Waits(k.s, x)
  {
    Distance(k.s, x) + Late(k.s.ring, k.windows, x, b)
  }

  /** A window opened on a ring of the same order. */
  lemma OpenedDelay<C>(r: seq<C>, r': seq<C>, w: seq<(C, C)>, p: (C, C), x: C, b: nat)
    requires Orderly(r, r') && x in r && (forall c :: c in r' ==> c in r) && !Passes(r', p, x)
    ensures Late(r', w + [p], x, b) <= Late(r, w, x, b)
  {
    forall q | q in w && Passes(r', q, x) ensures Passes(r, q, x) {
      OrderlyPasses(r, r', q, x);
    }
    LateMono(r, r', w, x, b);
    LateAppend(r', w, p, x, b);
  }

  lemma ChosenDelay<C, S>(s: Sched<C, S>, p: nat, w: seq<(C, C)>, x: C, b: nat)
    requires WellFormed(s) && s.ring != [] && x in s.ring && 1 <= p <= IndexOf(s.ring, x)
    ensures x in Chosen(s, p).ring && IndexOf(Chosen(s, p).ring, x) <= IndexOf(s.ring, x)
    ensures Late(Chosen(s, p).ring, w + [(s.ring[0], s.ring[p])], x, b) <= Late(s.ring, w, x, b)
    ensures |Chosen(s, p).ring| <= |s.ring|
  {
    assert s.ring[p..][IndexOf(s.ring, x) - p] == x;
    ChosenOrder(s, p);
    ChosenRing(s, p);
    UnlinkRing(s, p);
    ChosenNotLate(s, p, x);
    RelinkShorter(s.ring[1..p], s.etat);
    var t := Chosen(s, p);
    assert |t.ring| <= |s.ring|;
    assert forall c :: c in t.ring ==> c in s.ring;
    hide WellFormed, Chosen, Unlink, Relink, IndexOf, Distinct;
    OpenedDelay(s.ring, t.ring, w, (s.ring[0], s.ring[p]), x, b);
  }

  lemma {:induction false} FirstFound<C, S>(s: Sched<C, S>, i: nat)
    requires WellFormed(s) && 1 <= i <= |s.ring| && Walk(s, i).Found?
    ensures forall j :: i <= j < Walk(s, i).k && j < |s.ring| ==> !Runnable(s.etat[s.ring[j]])
    decreases |s.ring| - i
  {
    if i < |s.ring| && !Runnable(s.etat[s.ring[i]]) {
      FirstFound(s, i + 1);
    }
  }

  lemma ChooseDelay<C, S>(k: Kernel<C, S>, tick: bool, x: C, b: nat)
    requires WellFormed(k.s) && WindowsInv(k) && ChooseStep(k, tick).Go?
    requires Waits(k.s, x) && Waits(ChooseStep(k, tick).s.s, x)
    ensures Delay(ChooseStep(k, tick).s, x, b) + (if k.s.running then 0 else 1) <= Delay(k, x, b)
    ensures |ChooseStep(k, tick).s.s.ring| <= |k.s.ring|
  {
    var s := k.s;
    if s.running {
      WalkFound(s, 1);
      FirstFound(s, 1);
      var p := Walk(s, 1).k;
      assert p <= IndexOf(s.ring, x);
      var t := ChooseStep(k, tick).s;
      assert t.s == Chosen(s, p) && t.windows == k.windows + [(s.ring[0], s.ring[p])];
      assert t.s.running;
      hide Chosen, Walk, ChooseStep, WindowsInv;
      ChosenDelay(s, p, k.windows, x, b);
    } else {
      assert k.windows == [];
    }
  }

  /** The window just opened does not pass a context that could run. */
  lemma ChosenNotLate<C, S>(s: Sched<C, S>, k: nat, x: C)
    requires WellFormed(s) && s.ring != [] && 1 <= k < |s.ring| && x in s.ring && k <= IndexOf(s.ring, x)
    ensures !Passes(Chosen(s, k).ring, (s.ring[0], s.ring[k]), x)
  {
    ChosenOrder(s, k);
    ChosenRing(s, k);
    IndexUnique(s.ring, 0);
    IndexUnique(s.ring, k);
    var r := Chosen(s, k).ring;
    assert At(s, k) == s.ring[k];
    hide Chosen, Unlink, Distinct;
    if Passes(r, (s.ring[0], s.ring[k]), x) {
      OrderlyPasses(s.ring, r, (s.ring[0], s.ring[k]), x);
    }
  }

  /** Switching either brings `x` nearer or uses up a window that passes it. */
  lemma SwitchDelay<C, S>(k: Kernel<C, S>, x: C, b: nat)
    requires WellFormed(k.s) && WindowsInv(k) && InWindow(k) && SwitchStep(k).Go?
    requires Waits(k.s, x) && Waits(SwitchStep(k).s.s, x)
    requires |k.s.ring| <= b
    ensures Delay(SwitchStep(k).s, x, b) + 1 <= Delay(k, x, b)
    ensures |SwitchStep(k).s.s.ring| == |k.s.ring|
  {
    var s := k.s;
    var t := SwitchStep(k).s;
    var i := Last(k.windows, s.ring[0]);
    var c := Target(k);
    assert t.s.ring == Turn(s, c).ring && t.s.running && t.s.ring[0] == c && t.windows == Without(k.windows, i);
    assert k.windows[i] == (s.ring[0], c);
    var w, d := k.windows, Distance(s, x);
    hide SwitchStep, Target, InWindow, WindowsInv, Last;
    TurnDelay(s, w, i, c, x, b);
  }

  lemma TurnDelay<C, S>(s: Sched<C, S>, w: seq<(C, C)>, i: nat, c: C, x: C, b: nat)
    requires WellFormed(s) && s.ring != [] && c in s.ring && x in s.ring && x != c && x != s.ring[0] && |s.ring| <= b
    requires i < |w| && w[i] == (s.ring[0], c)
    ensures var r := Turn(s, c).ring;
            && |r| == |s.ring| && x in r
            && IndexOf(r, x) + Late(r, Without(w, i), x, b) + 1 <= IndexOf(s.ring, x) + Late(s.ring, w, x, b)
  {
    var j := IndexOf(s.ring, c);
    var p, q := s.ring[..j], s.ring[j..];
    var r := Turn(s, c).ring;
    assert s.ring == p + q && r == q + p;
    forall e | e in Without(w, i) && Passes(r, e, x) ensures Passes(s.ring, e, x) {
      TurnPasses(p, q, e, x);
    }
    LateMono(s.ring, r, Without(w, i), x, b);
    LateWithout(s.ring, w, i, x, b);
    TurnIndex(p, q, x);
    IndexUnique(s.ring, 0);
    IndexInjective(s.ring, x, c);
    IndexInjective(s.ring, x, s.ring[0]);
    hide Turn, Late, Distinct, WellFormed;
  }

  lemma CallDelay<C, S>(k: Kernel<C, S>, ev: Event<C, S>, x: C, b: nat)
    requires WellFormed(k.s) && WindowsInv(k) && Permitted(k, Call(ev)) && CallStep(k, ev).Go?
    requires Waits(k.s, x) && Waits(CallStep(k, ev).s.s, x)
    ensures Delay(CallStep(k, ev).s, x, b) <= Delay(k, x, b) + (if ev.Create? then 1 else 0)
    ensures |CallStep(k, ev).s.s.ring| <= |k.s.ring| + (if ev.Create? then 1 else 0)
  {
    var s := k.s;
    var t := CallStep(k, ev).s;
    if ev.Create? {
      var p := IndexOf(s.ring, s.head.value);
      assert t.s.ring == s.ring[..p + 1] + [ev.c] + s.ring[p + 1..];
      assert t.windows == k.windows && t.s.running == s.running && ev.c !in s.ring;
      assert forall e :: e in k.windows ==> e.0 in s.etat && e.1 in s.etat;
      hide CallStep, Step, Late, Passes;
      InsertFarther(s.ring, p + 1, ev.c, x);
      CreatePasses(s.ring, p + 1, ev.c, k.windows, x);
      LateMono(s.ring, t.s.ring, k.windows, x, b);
    } else {
      assert t.windows == k.windows && t.s.ring == s.ring && t.s.running == s.running;
      hide CallStep, Step, Late;
    }
  }

  lemma CreatePasses<C>(r: seq<C>, p: nat, c: C, w: seq<(C, C)>, x: C)
    requires Distinct(r) && p <= |r| && c !in r && x in r && (forall e :: e in w ==> e.0 != c && e.1 != c)
    ensures forall e :: e in w && Passes(r[..p] + [c] + r[p..], e, x) ==> Passes(r, e, x)
  {
    InsertOrder(r, p, c);
    forall e | e in w && Passes(r[..p] + [c] + r[p..], e, x) ensures Passes(r, e, x) {
      InsertedOnly(r, p, c, e.0);
      InsertedOnly(r, p, c, e.1);
      OrderlyPasses(r, r[..p] + [c] + r[p..], e, x);
    }
  }

  lemma InsertedOnly<C>(r: seq<C>, p: nat, c: C, y: C)
    requires p <= |r| && y != c && y in r[..p] + [c] + r[p..]
    ensures y in r
  {
  }

  lemma ActDelay<C, S>(k: Kernel<C, S>, a: Act<C, S>, x: C, b: nat)
    requires WellFormed(k.s) && WindowsInv(k) && Permitted(k, a) && Do(k, a).Go?
    requires Waits(k.s, x) && Waits(Do(k, a).s.s, x)
    requires |k.s.ring| <= b
    ensures Delay(Do(k, a).s, x, b) + (if IsSwitch(k, a) then 1 else 0)
            <= Delay(k, x, b) + (if IsCreate(a) then 1 else 0)
    ensures |Do(k, a).s.s.ring| <= |k.s.ring| + (if IsCreate(a) then 1 else 0)
  {
    hide WindowsInv, Delay, Waits;
    match a
    case Choose(tick) => ChooseDelay(k, tick, x, b);
    case Switch => SwitchDelay(k, x, b);
    case Call(ev) => CallDelay(k, ev, x, b);
  }

  // ---- Runs -------------------------------------------------------------------------------------

  function Created<C, S>(acts: seq<Act<C, S>>): nat {
    if acts == [] then 0 else Created(acts[..|acts| - 1]) + if IsCreate(acts[|acts| - 1]) then 1 else 0
  }

  /** The switches among the first `n` acts. */
  function Switches<C, S>(tr: seq<Kernel<C, S>>, acts: seq<Act<C, S>>, n: nat): nat
    requires n <= |acts| && n <= |tr|
  {
    if n == 0 then 0 else Switches(tr, acts, n - 1) + if IsSwitch(tr[n - 1], acts[n - 1]) then 1 else 0
  }

  lemma {:induction false} CreatedSoFar<C, S>(acts: seq<Act<C, S>>, n: nat)
    requires n <= |acts|
    ensures Created(acts[..n]) <= Created(acts)
    decreases |acts| - n
  {
    if n < |acts| {
      CreatedSoFar(acts, n + 1);
      assert acts[..n + 1][..n] == acts[..n];
    } else {
      assert acts[..n] == acts;
    }
  }

  lemma {:induction false} DelayRun<C, S>(tr: seq<Kernel<C, S>>, acts: seq<Act<C, S>>, x: C, n: nat, b: nat)
    requires Preemption.IsRun(tr, acts) && WindowsInv(tr[0]) && n <= |acts|
    requires forall i :: 0 <= i < |tr| ==> Waits(tr[i].s, x)
    requires |tr[0].s.ring| + Created(acts) <= b
    ensures |tr[n].s.ring| <= |tr[0].s.ring| + Created(acts[..n])
    ensures Delay(tr[n], x, b) + Switches(tr, acts, n) <= Delay(tr[0], x, b) + Created(acts[..n])
  {
    hide WindowsInv, Waits, Do, Permitted, Delay, IsCreate, IsSwitch;
    if n > 0 {
      DelayRun(tr, acts, x, n - 1, b);
      WindowsRun(tr, acts, n - 1);
      ActAt(tr, acts, n - 1);
      CreatedSoFar(acts, n - 1);
      ActDelay(tr[n - 1], acts[n - 1], x, b);
      assert acts[..n][..n - 1] == acts[..n - 1] && acts[..n][n - 1] == acts[n - 1];
    }
  }

  /** Bounded waiting, wherever the ticks fall and whatever they break: a context that stays READY or ACTIVABLE
      but is never the running one has seen at most n - 2 + k + w * (n + k) switches, n being the length of the
      ring and w the number of open windows at the start, k the number of contexts created since; one more if
      nothing ran at the start. With no window open this is the bound of a scheduler that cannot be interrupted. */
  lemma {:induction false} PreemptiveWaiting<C, S>(tr: seq<Kernel<C, S>>, acts: seq<Act<C, S>>, x: C)
    requires Preemption.IsRun(tr, acts) && WindowsInv(tr[0])
    requires forall i :: 0 <= i < |tr| ==> Waits(tr[i].s, x)
    ensures var n, k, w := |tr[0].s.ring|, Created(acts), |tr[0].windows|;
            Switches(tr, acts, |acts|) <= n - 2 + k + w * (n + k) + (if tr[0].s.running then 0 else 1)
  {
    var b := |tr[0].s.ring| + Created(acts);
    hide *;
    SwitchesBound(tr, acts, x, b);
  }

  lemma SwitchesBound<C, S>(tr: seq<Kernel<C, S>>, acts: seq<Act<C, S>>, x: C, b: nat)
    requires Preemption.IsRun(tr, acts) && WindowsInv(tr[0])
    requires (forall i :: 0 <= i < |tr| ==> Waits(tr[i].s, x)) && b == |tr[0].s.ring| + Created(acts)
    ensures Switches(tr, acts, |acts|) <= b - 2 + |tr[0].windows| * b + (if tr[0].s.running then 0 else 1)
  {
    hide WindowsInv, Waits, Do, Permitted, Delay, Switches, Created;
    DelayRun(tr, acts, x, |acts|, b);
    assert acts[..|acts|] == acts;
    DelayBounds(tr[|acts|], x, b);
    DelayBounds(tr[0], x, b);
  }

  lemma DelayBounds<C, S>(k: Kernel<C, S>, x: C, b: nat)
    requires Waits(k.s, x)
    ensures 1 <= Delay(k, x, b) <= |k.s.ring| - (if k.s.running then 1 else 0) + |k.windows| * b
  {
    FarFrom(k.s, x);
    LateBound(k.s.ring, k.windows, x, b);
    hide Waits, Late;
  }
}

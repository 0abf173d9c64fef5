/** src/x86-64/examples/TP3.c with ticks inside yield. The function chooses a context with the interrupts
    masked, unmasks them (line 116), and masks them again only in switch_to_ctx (line 126). A tick in between
    is a yield of its own, on the stack of the same context; when that context is resumed it goes on with the
    switch it was about to make, to the target chosen before. A tick may also come just before a context calls
    yield itself, which it then does once resumed. */
module Preemption {
  import opened Collections
  import opened SchedulerSpec

  /** `windows` are the calls of yield that have chosen and not switched yet, as pairs of caller and target,
      oldest first: the last pair of a context belongs to the innermost call on its stack. `due` are the contexts
      that have blocked or returned and not called yield since, which is the next thing they do outside their
      windows. The rest is history, of what the contexts can tell themselves: `calling` is the semaphore of the
      sem_down that a context blocked in and has not returned from, `inside` the semaphores it returned from
      sem_down on and has not called sem_up on since. */
  datatype Kernel<!C, !S> = Kernel(s: Sched<C, S>, windows: seq<(C, C)>, due: set<C>,
                                   calling: map<C, S>, inside: set<(C, S)>)

  /** Choose is lines 94 to 116, of a call made by the running context or by a tick on its stack; before the
      first switch it is all of yield, as the program that creates the contexts is never resumed. Switch is lines
      117 to 155. Call is any operation but yield. */
  datatype Act<C, S> = Choose(tick: bool) | Switch | Call(ev: Event<C, S>)

  // ---- Windows ----------------------------------------------------------------------------------

  predicate Open<C(==)>(w: seq<(C, C)>, c: C) {
    w != [] && (w[|w| - 1].0 == c || Open(w[..|w| - 1], c))
  }

  /** The position of the last pair of `c`. */
  function Last<C(==)>(w: seq<(C, C)>, c: C): (i: nat)
    requires Open(w, c)
    ensures i < |w| && w[i].0 == c
  {
    if w[|w| - 1].0 == c then |w| - 1 else Last(w[..|w| - 1], c)
  }

  // ---- The two halves of yield ------------------------------------------------------------------

  /** The walk stopped at position `k`: the ring as it leaves it, current_ctx being the same. */
  function Chosen<C, S>(s: Sched<C, S>, k: nat): Sched<C, S>
    requires WellFormed(s) && s.ring != [] && 1 <= k <= |s.ring|
  {
    Unlink(s, k).(ring := [s.ring[0]] + Relink(s.ring[1..k], s.etat) + s.ring[k..])
  }

  /** The ring read from `t`. */
  function Turn<C, S>(s: Sched<C, S>, t: C): Sched<C, S>
    requires t in s.ring
  {
    var i := IndexOf(s.ring, t);
    s.(ring := s.ring[i..] + s.ring[..i])
  }

  /** switch_to_ctx to any context: a freed one has no stack to go on with. */
  function SwitchCtx<C, S>(s: Sched<C, S>, t: C): Outcome<Sched<C, S>>
    requires WellFormed(s)
  {
    if t !in s.ring || t in s.freed then Crash
    else
      var u := Turn(s, t);
      assert u.ring[0] == t;
      Go(Enter(u))
  }

  function ChooseStep<C, S>(k: Kernel<C, S>, tick: bool): Outcome<Kernel<C, S>>
    requires WellFormed(k.s)
  {
    var s := k.s;
    if s.ring == [] then Crash
    else if !s.running then Go(k.(s := Enter(s)))
    else
      match Walk(s, 1)
      case Dangling => Crash
      case Nothing => Exit
      case Found(p) =>
        WalkFound(s, 1);
        Go(k.(s := Chosen(s, p), windows := k.windows + [(s.ring[0], At(s, p))],
              due := if tick then k.due else k.due - {s.ring[0]}))
  }

  // ---- Switching --------------------------------------------------------------------------------

  predicate InWindow<C(==), S>(k: Kernel<C, S>)
    requires WellFormed(k.s)
  {
    k.s.running && Open(k.windows, k.s.ring[0])
  }

  /** The context the running one is about to switch to. */
  function Target<C, S>(k: Kernel<C, S>): C
    requires WellFormed(k.s) && InWindow(k)
  {
    k.windows[Last(k.windows, k.s.ring[0])].1
  }

  /** A context resumed outside all windows, its yield being made, returns from the sem_down it may have
      blocked in. */
  function Resumed<C, S>(k: Kernel<C, S>, t: C): Kernel<C, S> {
    if t in k.calling && !Open(k.windows, t) && t !in k.due then
      k.(inside := k.inside + {(t, k.calling[t])}, calling := k.calling - {t})
    else k
  }

  function SwitchStep<C, S>(k: Kernel<C, S>): Outcome<Kernel<C, S>>
    requires WellFormed(k.s) && InWindow(k)
  {
    var t := Target(k);
    match SwitchCtx(k.s, t)
    case Go(s) => Go(Resumed(k.(s := s, windows := Without(k.windows, Last(k.windows, k.s.ring[0]))), t))
    case _ => Crash
  }

  // ---- Calls ------------------------------------------------------------------------------------

  /** The call leaves the running context blocked on a semaphore. */
  predicate Blocks<C, S>(s: Sched<C, S>, ev: Event<C, S>)
    requires WellFormed(s) && Callable(s, ev)
  {
    ev.Down? && s.running && s.sems[ev.m].val < 1
  }

  function CallStep<C, S>(k: Kernel<C, S>, ev: Event<C, S>): Outcome<Kernel<C, S>>
    requires WellFormed(k.s) && Callable(k.s, ev) && !ev.Yield?
  {
    match Step(k.s, ev)
    case Go(t) =>
      Go(k.(s := t,
            due := if Blocks(k.s, ev) || ev.Finish? then k.due + {k.s.ring[0]} else k.due,
            calling := if Blocks(k.s, ev) then k.calling[k.s.ring[0] := ev.m] else k.calling,
            inside := if !k.s.running then k.inside
                      else if ev.Down? && !Blocks(k.s, ev) then k.inside + {(k.s.ring[0], ev.m)}
                      else if ev.Up? then k.inside - {(k.s.ring[0], ev.m)}
                      else k.inside))
    case _ => Crash
  }

  // ---- Runs -------------------------------------------------------------------------------------

  /** Ticks may come anywhere. A switch ends the innermost window of the running context. Other calls are made
      outside windows, by whatever context runs and whatever its etat says; yield is the only one when it is
      due. */
  predicate Permitted<C(==), S>(k: Kernel<C, S>, a: Act<C, S>)
    requires WellFormed(k.s)
  {
    match a
    case Choose(tick) => tick || !InWindow(k)
    case Switch => InWindow(k)
    case Call(ev) => !ev.Yield? && Callable(k.s, ev) && (k.s.running ==> k.s.ring[0] !in k.due) && !InWindow(k)
  }

  function Do<C, S>(k: Kernel<C, S>, a: Act<C, S>): Outcome<Kernel<C, S>>
    requires WellFormed(k.s) && Permitted(k, a)
  {
    match a
    case Choose(tick) => ChooseStep(k, tick)
    case Switch => SwitchStep(k)
    case Call(ev) => CallStep(k, ev)
  }

  predicate IsRun<C(==), S(==)>(tr: seq<Kernel<C, S>>, acts: seq<Act<C, S>>) {
    && |tr| == |acts| + 1
    && (forall i :: 0 <= i < |acts| ==>
          WellFormed(tr[i].s) && Permitted(tr[i], acts[i]) && Do(tr[i], acts[i]) == Go(tr[i + 1]))
  }

  function Boot<C, S>(initial: map<S, nat>): Kernel<C, S>
    requires forall m :: m in initial ==> initial[m] < 0x1_0000_0000
  {
    Kernel(SchedulerSpec.Boot(initial), [], {}, map[], {})
  }
}

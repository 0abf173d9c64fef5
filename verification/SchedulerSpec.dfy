/** Values that the scheduler's globals and structures stand for, and the effect on them of each
    operation of src/x86-64/examples/TP3.c, exactly as the C code performs it.

    `C` identifies contexts (ctx_s) and `S` identifies semaphores (sem_s). */
module SchedulerSpec {
  import opened Collections

  datatype Etat = READY | ACTIVABLE | TERMINATED | WAITING

  predicate Runnable(e: Etat) {
    e == READY || e == ACTIVABLE
  }

  /** `val` and `blocked` are the two fields of sem_s, the list headed by first_blocked being read
      through next_blocked. The rest is history: `initial` is the value sem_init stored; `taken` and
      `parked` count the calls of sem_down that went on and those that blocked; `given` and `woken`
      count the calls of sem_up that incremented `val` and those that woke a context; `holders` are the
      contexts that obtained a token and have not called sem_up since. */
  datatype Sem<!C> = Sem(val: int, blocked: seq<C>,
                         initial: int, taken: nat, parked: nat, given: nat, woken: nat,
                         holders: set<C>)
  {
    function Downs(): nat { taken + parked }
    function Ups(): nat { given + woken }
    function Granted(): nat { taken + woken }
  }

  /** `ring` lists the contexts in the order of `next`, starting from current_ctx, or from ctx_ring as
      long as current_ctx is NULL. `head` is ctx_ring. `etat` knows every context ever created: the block
      of a freed context keeps the fields it had. `entries` counts the calls of entryPoint. */
  datatype Sched<!C, !S> = Sched(ring: seq<C>, head: Option<C>, running: bool,
                                 etat: map<C, Etat>, freed: set<C>, entries: map<C, nat>,
                                 sems: map<S, Sem<C>>)

  /** What a call leads to: it goes on in a new state, or calls exit(1), or follows NULL or a pointer
      to a freed block. */
  datatype Outcome<+T> = Go(s: T) | Exit | Crash

  datatype Event<C, S> = Create(c: C) | Yield | Finish | Down(m: S) | Up(m: S)

  /** sem_init assigns an unsigned int to an int: values from 2^31 on come out negative. */
  function AsInt32(v: nat): (i: int)
    requires v < 0x1_0000_0000
    ensures -0x8000_0000 <= i < 0x8000_0000 && (i == v || v - i == 0x1_0000_0000)
  {
    if v < 0x8000_0000 then v else v - 0x1_0000_0000
  }

  function FreshSem<C>(v: nat): Sem<C>
    requires v < 0x1_0000_0000
  {
    Sem(AsInt32(v), [], AsInt32(v), 0, 0, 0, 0, {})
  }

  /** The state before any context exists, the semaphores having been given to sem_init. */
  function Boot<C, S>(initial: map<S, nat>): Sched<C, S>
    requires forall m :: m in initial ==> initial[m] < 0x1_0000_0000
  {
    Sched([], None, false, map[], {}, map[], map m | m in initial :: FreshSem(initial[m]))
  }

  // ---- Shape ------------------------------------------------------------------------------------

  /** The ring has no repetition and only knows created contexts; current_ctx and ctx_ring are on it. */
  predicate WellFormed<C(==), S>(s: Sched<C, S>) {
    && Distinct(s.ring)
    && (forall c :: c in s.ring ==> c in s.etat)
    && s.entries.Keys == s.etat.Keys
    && (s.ring == [] <==> s.head.None?)
    && (s.head.Some? ==> s.head.value in s.ring)
    && (s.running ==> s.ring != [])
  }

  function Current<C, S>(s: Sched<C, S>): C
    requires WellFormed(s) && s.running
  {
    s.ring[0]
  }

  // ---- create_ctx -------------------------------------------------------------------------------

  /** The new context goes right after ctx_ring. */
  function CreateCtx<C, S>(s: Sched<C, S>, c: C): Sched<C, S>
    requires WellFormed(s) && c !in s.etat
  {
    var s1 := s.(etat := s.etat[c := READY], entries := s.entries[c := 0]);
    if s.ring == [] then
      s1.(ring := [c], head := Some(c))
    else
      var p := IndexOf(s.ring, s.head.value);
      s1.(ring := s.ring[..p + 1] + [c] + s.ring[p + 1..])
  }

  // ---- yield ------------------------------------------------------------------------------------

  datatype Search = Found(k: nat) | Nothing | Dangling

  /** The walk of `target` from position `i` of the ring; position |ring| is current_ctx again. */
  function Walk<C, S>(s: Sched<C, S>, i: nat): Search
    requires WellFormed(s) && 1 <= i <= |s.ring|
    decreases |s.ring| - i
  {
    if i == |s.ring| then
      if Runnable(s.etat[s.ring[0]]) then Found(i) else Nothing
    else if s.ring[i] in s.freed then
      Dangling
    else if Runnable(s.etat[s.ring[i]]) then
      Found(i)
    else
      Walk(s, i + 1)
  }

  /** The context the walk examines at position `k`; position |ring| is current_ctx again. */
  function At<C, S>(s: Sched<C, S>, k: nat): C
    requires k <= |s.ring| && s.ring != []
  {
    s.ring[if k == |s.ring| then 0 else k]
  }

  /** The contexts still linked after the walk passed `w`. Each TERMINATED one is bypassed by the
      node just before it, whether or not that node has itself just been freed: the second of two
      TERMINATED neighbours therefore stays linked. */
  function Relink<C>(w: seq<C>, etat: map<C, Etat>): seq<C>
    requires forall c :: c in w ==> c in etat
  {
    if w == [] then []
    else if etat[w[0]] != TERMINATED then [w[0]] + Relink(w[1..], etat)
    else if |w| == 1 then []
    else [w[1]] + Relink(w[2..], etat)
  }

  /** ctx_ring after the walk, when it was at position `p`: it is pushed past each freed context. */
  function HeadFrom<C, S>(s: Sched<C, S>, p: nat, k: nat): C
    requires WellFormed(s) && s.ring != [] && p <= k <= |s.ring|
    decreases k - p
  {
    if p == |s.ring| then s.ring[0]
    else if p < k && s.etat[s.ring[p]] == TERMINATED then HeadFrom(s, p + 1, k)
    else s.ring[p]
  }

  function Reaped<C, S>(s: Sched<C, S>, k: nat): set<C>
    requires WellFormed(s) && 1 <= k <= |s.ring|
  {
    set c | c in s.ring[1..k] && s.etat[c] == TERMINATED
  }

  /** The ring once the walk stopped at position `k`, read from the context found there. */
  function Unlink<C, S>(s: Sched<C, S>, k: nat): Sched<C, S>
    requires WellFormed(s) && s.ring != [] && 1 <= k <= |s.ring|
  {
    var p := IndexOf(s.ring, s.head.value);
    s.(ring := s.ring[k..] + [s.ring[0]] + Relink(s.ring[1..k], s.etat),
       freed := s.freed + Reaped(s, k),
       head := Some(if 1 <= p < k then HeadFrom(s, p, k) else s.head.value))
  }

  /** switch_to_ctx(ring[0]): the entry point is called the first time only. */
  function Enter<C, S>(s: Sched<C, S>): Sched<C, S>
    requires s.ring != [] && s.ring[0] in s.etat && s.ring[0] in s.entries
  {
    var t := s.ring[0];
    if s.etat[t] == READY then
      s.(running := true, etat := s.etat[t := ACTIVABLE], entries := s.entries[t := s.entries[t] + 1])
    else
      s.(running := true)
  }

  function YieldCtx<C, S>(s: Sched<C, S>): Outcome<Sched<C, S>>
    requires WellFormed(s)
  {
    if s.ring == [] then Crash                     // switch_to_ctx(NULL)
    else if !s.running then Go(Enter(s))
    else
      match Walk(s, 1)
      case Dangling => Crash
      case Nothing => Exit
      case Found(k) => WalkFound(s, 1); Go(Enter(Unlink(s, k)))
  }

  lemma WalkFound<C, S>(s: Sched<C, S>, i: nat)
    requires WellFormed(s) && 1 <= i <= |s.ring|
    ensures Walk(s, i).Found? ==> i <= Walk(s, i).k <= |s.ring|
    decreases |s.ring| - i
  {
  }

  /** The entry point returned: the yield that follows is an event of its own, because interrupts are
      enabled in between. */
  function FinishCtx<C, S>(s: Sched<C, S>): Sched<C, S>
    requires WellFormed(s) && s.running
  {
    s.(etat := s.etat[s.ring[0] := TERMINATED])
  }

  // ---- semaphores -------------------------------------------------------------------------------

  /** sem_init, whether or not the semaphore was in use. */
  function InitSem<C, S>(s: Sched<C, S>, m: S, v: nat): Sched<C, S>
    requires v < 0x1_0000_0000
  {
    s.(sems := s.sems[m := FreshSem(v)])
  }

  function Caller<C, S>(s: Sched<C, S>): set<C>
    requires WellFormed(s)
  {
    if s.running then {s.ring[0]} else {}
  }

  /** sem_down up to the irq_enable; the yield of its blocking branch is an event of its own. */
  function SemDown<C, S>(s: Sched<C, S>, m: S): Outcome<Sched<C, S>>
    requires WellFormed(s) && m in s.sems
  {
    var q := s.sems[m];
    if q.val >= 1 then
      Go(s.(sems := s.sems[m := q.(val := q.val - 1, taken := q.taken + 1, holders := q.holders + Caller(s))]))
    else if !s.running then
      Crash                                        // current_ctx is NULL
    else
      Go(s.(etat := s.etat[s.ring[0] := WAITING],
            sems := s.sems[m := q.(val := q.val - 1, blocked := [s.ring[0]] + q.blocked, parked := q.parked + 1)]))
  }

  /** The semaphore after sem_up. The wake branch leaves `val` alone. */
  function Released<C>(q: Sem<C>, caller: set<C>): Sem<C>
    requires q.val >= 0 || q.blocked != []
  {
    if q.val >= 0 then
      q.(val := q.val + 1, given := q.given + 1, holders := q.holders - caller)
    else
      q.(blocked := q.blocked[1..], woken := q.woken + 1, holders := q.holders - caller + {q.blocked[0]})
  }

  function SemUp<C, S>(s: Sched<C, S>, m: S): Outcome<Sched<C, S>>
    requires WellFormed(s) && m in s.sems
  {
    var q := s.sems[m];
    if q.val < 0 && q.blocked == [] then
      Crash                                        // first_blocked is NULL
    else
      Go(s.(sems := s.sems[m := Released(q, Caller(s))],
            etat := if q.val >= 0 then s.etat else s.etat[q.blocked[0] := ACTIVABLE]))
  }

  // ---- runs -------------------------------------------------------------------------------------

  /** What the arguments and the globals must be for a call to make sense. */
  predicate Callable<C, S>(s: Sched<C, S>, ev: Event<C, S>)
    requires WellFormed(s)
  {
    && (ev.Create? ==> ev.c !in s.etat)
    && (ev.Finish? ==> s.running)
    && (ev.Down? || ev.Up? ==> ev.m in s.sems)
  }

  /** A yield is a call of yield or a timer tick. The other operations are calls made by the running code: by
      the program before its first yield, by an ACTIVABLE context afterwards. */
  predicate Enabled<C, S>(s: Sched<C, S>, ev: Event<C, S>)
    requires WellFormed(s)
  {
    Callable(s, ev) && (ev.Yield? || !s.running || s.etat[s.ring[0]] == ACTIVABLE)
  }

  function Step<C, S>(s: Sched<C, S>, ev: Event<C, S>): Outcome<Sched<C, S>>
    requires WellFormed(s) && Callable(s, ev)
  {
    match ev
    case Create(c) => Go(CreateCtx(s, c))
    case Yield => YieldCtx(s)
    case Finish => Go(FinishCtx(s))
    case Down(m) => SemDown(s, m)
    case Up(m) => SemUp(s, m)
  }

  /** `tr` holds the states of a run of the events `evs`, none of which exits or crashes, and each of which is
      one step: no tick falls inside a yield. */
  predicate IsRun<C(==), S(==)>(tr: seq<Sched<C, S>>, evs: seq<Event<C, S>>) {
    && |tr| == |evs| + 1
    && (forall i :: 0 <= i < |evs| ==>
          WellFormed(tr[i]) && Enabled(tr[i], evs[i]) && Step(tr[i], evs[i]) == Go(tr[i + 1]))
  }
}

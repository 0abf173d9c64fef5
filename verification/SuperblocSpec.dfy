/** What the calls of src/includes/superbloc.c do to the free lists of the volumes, as a state machine over
    values. `N` identifies the nodes of the lists (list_bloc_t). */
module SuperblocSpec {
  import opened Collections

  /** The field `first` of a superblock: never assigned, or the list it heads. */
  datatype First<!N> = Unset | List(nodes: seq<N>)

  /** `sizes` are the sizes of the volumes; `saved` is what the first block of each one holds, None standing
      for a block without magic number. `loaded` is the volume the current superblock came from and the
      value of its `first`, or None when current_superbloc is NULL. `pos` gives the block of every node ever
      allocated and `live` the nodes that have not been freed. `held` is history: the blocks handed out and
      not given back, volume by volume. */
  datatype Store<!N> = Store(sizes: seq<nat>, saved: seq<Option<First<N>>>, loaded: Option<(nat, First<N>)>,
                             pos: map<N, nat>, live: set<N>, held: seq<set<nat>>)

  /** The value returned, and the state reached; Crash follows a NULL, freed or unassigned pointer. */
  datatype Outcome<!N> = Done(code: int, s: Store<N>) | Crash

  /** `got` is what malloc returns. */
  datatype Event<N> = Load(v: nat, got: seq<N>) | Save | NewBloc | FreeBloc(bloc: nat, node: N)

  const NOT_LOADED_NEW := -1
  const NOT_LOADED_FREE := -2
  const OUT_OF_VOLUME := -1

  predicate WellFormed<N>(s: Store<N>) {
    && |s.saved| == |s.sizes| == |s.held|
    && s.live <= s.pos.Keys
    && (forall v :: 0 <= v < |s.saved| ==> Known(s.saved[v], s.pos))
    && (s.loaded.Some? ==> s.loaded.value.0 < |s.sizes| && Known(Some(s.loaded.value.1), s.pos))
  }

  predicate Known<N>(f: Option<First<N>>, pos: map<N, nat>) {
    f.Some? && f.value.List? ==> forall n :: n in f.value.nodes ==> n in pos
  }

  /** How many nodes init_volume creates for a volume of `size` blocks: one at least. */
  function InitCount(size: nat): nat {
    if size <= 2 then 1 else size - 1
  }

  function InitPos<N>(got: seq<N>): (r: map<N, nat>)
    requires Distinct(got)
    ensures r.Keys == set n | n in got
    ensures forall i :: 0 <= i < |got| ==> r[got[i]] == i + 1
  {
    map n | n in got :: IndexOf(got, n) + 1
  }

  predicate Enabled<N>(s: Store<N>, ev: Event<N>)
    requires WellFormed(s)
  {
    match ev
    case Load(v, got) =>
      && v < |s.sizes|
      && (s.saved[v].None? ==>
            |got| == InitCount(s.sizes[v]) && Distinct(got) && (forall n :: n in got ==> n !in s.pos))
    case FreeBloc(_, n) => n !in s.pos
    case _ => true
  }

  /** load_super: a block without superblock is initialised first. */
  function LoadSuper<N>(s: Store<N>, v: nat, got: seq<N>): Outcome<N>
    requires WellFormed(s) && Enabled(s, Load(v, got))
  {
    if s.saved[v].Some? then
      Done(v, s.(loaded := Some((v, s.saved[v].value))))
    else
      Done(v, s.(saved := s.saved[v := Some(Unset)], loaded := Some((v, List(got))),
                 pos := s.pos + InitPos(got), live := s.live + (set n | n in got), held := s.held[v := {}]))
  }

  function SaveSuper<N>(s: Store<N>): Outcome<N>
    requires WellFormed(s)
  {
    if s.loaded.None? then Crash                   // current_superbloc is NULL
    else Done(0, s.(saved := s.saved[s.loaded.value.0 := Some(s.loaded.value.1)], loaded := None))
  }

  function TakeBloc<N>(s: Store<N>): Outcome<N>
    requires WellFormed(s)
  {
    if s.loaded.None? then Done(NOT_LOADED_NEW, s)
    else
      var (v, f) := s.loaded.value;
      if f.Unset? then Crash
      else if f.nodes == [] then Done(0, s)
      else if f.nodes[0] !in s.live then Crash
      else
        var b := s.pos[f.nodes[0]];
        Done(b, s.(loaded := Some((v, List(f.nodes[1..]))), live := s.live - {f.nodes[0]},
                   held := s.held[v := s.held[v] + {b}]))
  }

  datatype Search = Present | Absent | Dangling

  function Find<N>(nodes: seq<N>, pos: map<N, nat>, live: set<N>, bloc: nat): Search
    requires forall n :: n in nodes ==> n in pos
  {
    if nodes == [] then Absent
    else if nodes[0] !in live then Dangling
    else if pos[nodes[0]] == bloc then Present
    else Find(nodes[1..], pos, live, bloc)
  }

  function GiveBloc<N>(s: Store<N>, bloc: nat, got: N): Outcome<N>
    requires WellFormed(s) && got !in s.pos
  {
    if s.loaded.None? then Done(NOT_LOADED_FREE, s)
    else
      var (v, f) := s.loaded.value;
      if bloc >= s.sizes[v] then Done(OUT_OF_VOLUME, s)
      else if f.Unset? then Crash
      else
        match Find(f.nodes, s.pos, s.live, bloc)
        case Dangling => Crash
        case Present => Done(0, s)
        case Absent =>
          Done(1, s.(loaded := Some((v, List([got] + f.nodes))), pos := s.pos[got := bloc],
                     live := s.live + {got}, held := s.held[v := s.held[v] - {bloc}]))
  }

  function Step<N>(s: Store<N>, ev: Event<N>): Outcome<N>
    requires WellFormed(s) && Enabled(s, ev)
  {
    match ev
    case Load(v, got) => LoadSuper(s, v, got)
    case Save => SaveSuper(s)
    case NewBloc => TakeBloc(s)
    case FreeBloc(b, n) => GiveBloc(s, b, n)
  }

  /** `tr` holds the states of a run of the calls `evs`, none of which crashes, and `codes` what they
      return. */
  predicate IsRun<N(==)>(tr: seq<Store<N>>, evs: seq<Event<N>>, codes: seq<int>) {
    && |tr| == |evs| + 1 && |codes| == |evs|
    && (forall i :: 0 <= i < |evs| ==>
          WellFormed(tr[i]) && Enabled(tr[i], evs[i]) && Step(tr[i], evs[i]) == Done(codes[i], tr[i + 1]))
  }

  /** No volume holds a superblock yet. */
  function Boot<N>(sizes: seq<nat>): Store<N> {
    Store(sizes, seq(|sizes|, _ => None), None, map[], {}, seq(|sizes|, _ => {}))
  }
}

/** The allocator of src/includes/superbloc.c over whole sessions: blocks are neither lost nor handed out
    twice, and the free list of a volume survives the loading of other ones. Then what goes wrong outside
    the discipline the sessions follow. */
module SuperblocTheorems {
  import opened Collections
  import opened SuperblocSpec

  // ---- The invariant ----------------------------------------------------------------------------

  predicate IsLoaded<N>(s: Store<N>, v: nat) {
    s.loaded.Some? && s.loaded.value.0 == v
  }

  /** The field `first` of volume `v`: in memory while `v` is loaded, in its first block otherwise. */
  function FirstOf<N>(s: Store<N>, v: nat): Option<First<N>>
    requires v < |s.saved|
  {
    if IsLoaded(s, v) then Some(s.loaded.value.1) else s.saved[v]
  }

  function Blocks<N>(nodes: seq<N>, pos: map<N, nat>): (r: set<nat>)
    requires forall n :: n in nodes ==> n in pos
  {
    set n | n in nodes :: pos[n]
  }

  /** The blocks of a volume other than its superblock. */
  function DataBlocks(size: nat): set<nat> {
    set b: nat | b < size && IsData(b)
  }

  predicate IsData(b: nat) {
    b >= 1
  }

  /** A list of live nodes of distinct data blocks, the other data blocks being held. */
  predicate GoodList<N(==)>(nodes: seq<N>, pos: map<N, nat>, live: set<N>, size: nat, held: set<nat>) {
    && Distinct(nodes)
    && (forall n :: n in nodes ==> n in pos && n in live && 1 <= pos[n] < size)
    && (forall i, j :: 0 <= i < j < |nodes| ==> pos[nodes[i]] != pos[nodes[j]])
    && Blocks(nodes, pos) !! held
    && Blocks(nodes, pos) + held == DataBlocks(size)
  }

  predicate GoodVolume<N(==)>(s: Store<N>, v: nat)
    requires v < |s.saved| && v < |s.sizes| && v < |s.held|
  {
    match FirstOf(s, v)
    case None => s.held[v] == {}
    case Some(Unset) => false
    case Some(List(nodes)) => GoodList(nodes, s.pos, s.live, s.sizes[v], s.held[v])
  }

  function NodesOf<N>(s: Store<N>, v: nat): seq<N>
    requires v < |s.saved|
  {
    match FirstOf(s, v)
    case Some(List(nodes)) => nodes
    case _ => []
  }

  predicate Apart<N(==)>(s: Store<N>) {
    forall v, w :: 0 <= v < |s.saved| && 0 <= w < |s.saved| && v != w ==>
      forall n :: n in NodesOf(s, v) ==> n !in NodesOf(s, w)
  }

  predicate Inv<N(==)>(s: Store<N>) {
    && WellFormed(s)
    && (forall v :: 0 <= v < |s.sizes| ==> GoodVolume(s, v))
    && Apart(s)
  }

  /** The superblock in memory has the list that its volume has on the disk: nothing would be lost by
      dropping it. */
  predicate Synced<N(==)>(s: Store<N>)
    requires WellFormed(s)
  {
    s.loaded.Some? && s.saved[s.loaded.value.0] == Some(s.loaded.value.1)
  }

  predicate MayLoad<N(==)>(s: Store<N>, v: nat)
    requires WellFormed(s)
  {
    && (s.loaded.None? || Synced(s))
    && (v < |s.sizes| && s.saved[v].None? ==> s.sizes[v] >= 2)
  }

  /** A volume is loaded when none is, or when the one in memory is on the disk as it is; one that has no
      superblock yet has two blocks or more. Nothing is saved when none is loaded. Block 0 is not given back. */
  predicate Disciplined<N(==)>(s: Store<N>, ev: Event<N>)
    requires WellFormed(s)
  {
    && (ev.Load? ==> MayLoad(s, ev.v))
    && (ev.Save? ==> s.loaded.Some?)
    && (ev.FreeBloc? && s.loaded.Some? && ev.bloc < s.sizes[s.loaded.value.0] ==> ev.bloc != 0)
  }

  /** The list on the disk is the one in memory, short of `j` nodes added since and with `i` nodes taken
      since, all of which have been freed. */
  predicate Behind<N(==)>(disk: seq<N>, memory: seq<N>, live: set<N>, i: nat, j: nat) {
    && i <= |disk| && j <= |memory| && disk[i..] == memory[j..]
    && (forall l :: 0 <= l < i ==> disk[l] !in live)
  }

  /** What the disk knows of the volume loaded: nothing yet, or a list left behind. */
  ghost predicate Tracks<N>(s: Store<N>)
    requires WellFormed(s)
  {
    s.loaded.Some? && s.loaded.value.1.List? ==>
      var disk := s.saved[s.loaded.value.0];
      && disk.Some?
      && (disk.value.List? ==>
            exists i, j :: Behind(disk.value.nodes, s.loaded.value.1.nodes, s.live, i, j))
  }

  // ---- Preservation -----------------------------------------------------------------------------

  lemma BootInv<N>(sizes: seq<nat>)
    ensures Inv(Boot<N>(sizes))
  {
  }

  lemma InitGood<N>(got: seq<N>, pos: map<N, nat>, live: set<N>, size: nat)
    requires size >= 2 && |got| == InitCount(size) && Distinct(got)
    ensures GoodList(got, pos + InitPos(got), live + (set n | n in got), size, {})
  {
    var pos' := pos + InitPos(got);
    assert forall i :: 0 <= i < |got| ==> pos'[got[i]] == i + 1;
    forall b | b in DataBlocks(size) ensures b in Blocks(got, pos') {
      assert got[b - 1] in got && pos'[got[b - 1]] == b;
    }
  }

  lemma PopGood<N>(nodes: seq<N>, pos: map<N, nat>, live: set<N>, size: nat, held: set<nat>)
    requires GoodList(nodes, pos, live, size, held) && nodes != []
    ensures GoodList(nodes[1..], pos, live - {nodes[0]}, size, held + {pos[nodes[0]]})
    ensures pos[nodes[0]] !in held
  {
  }

  lemma PushGood<N>(nodes: seq<N>, pos: map<N, nat>, live: set<N>, size: nat, held: set<nat>, n: N, b: nat)
    requires GoodList(nodes, pos, live, size, held) && n !in pos && 1 <= b < size && b !in Blocks(nodes, pos)
    ensures GoodList([n] + nodes, pos[n := b], live + {n}, size, held - {b})
  {
    var pos' := pos[n := b];
    var nodes' := [n] + nodes;
    assert forall x :: x in nodes ==> x != n && pos'[x] == pos[x];
    assert forall i :: 1 <= i < |nodes'| ==> nodes'[i] == nodes[i - 1] && nodes[i - 1] in nodes;
    assert Blocks(nodes', pos') == Blocks(nodes, pos) + {b} by {
      assert n in nodes';
      forall x | x in nodes' ensures pos'[x] in Blocks(nodes, pos) + {b} {
      }
      forall x | x in nodes ensures pos[x] in Blocks(nodes', pos') {
        assert x in nodes' && pos'[x] == pos[x];
      }
    }
    forall i, j | 0 <= i < j < |nodes'| ensures pos'[nodes'[i]] != pos'[nodes'[j]] && nodes'[i] != nodes'[j] {
      assert nodes'[j] == nodes[j - 1];
      assert nodes'[j] in nodes;
    }
  }

  lemma {:induction false} FindExact<N>(nodes: seq<N>, pos: map<N, nat>, live: set<N>, bloc: nat)
    requires forall n :: n in nodes ==> n in pos && n in live
    ensures Find(nodes, pos, live, bloc) == if bloc in Blocks(nodes, pos) then Present else Absent
  {
    if nodes != [] {
      assert nodes == [nodes[0]] + nodes[1..];
      if pos[nodes[0]] != bloc {
        FindExact(nodes[1..], pos, live, bloc);
        assert bloc in Blocks(nodes, pos) <==> bloc in Blocks(nodes[1..], pos);
      }
    }
  }

  /** What the codes mean, and that no disciplined call crashes: new_bloc gives a data block that nobody
      holds, 0 when all are held, and free_bloc takes back a held block, or reports that it is free, or out
      of the volume. */
  lemma CodesExact<N>(s: Store<N>, ev: Event<N>)
    requires Inv(s) && Enabled(s, ev) && Disciplined(s, ev)
    ensures Step(s, ev).Done?
    ensures s.loaded.None? && ev.NewBloc? ==> Step(s, ev) == Done(-1, s)
    ensures s.loaded.None? && ev.FreeBloc? ==> Step(s, ev) == Done(-2, s)
    ensures s.loaded.Some? && ev.NewBloc? ==>
              var v := s.loaded.value.0;
              var code := Step(s, ev).code;
              && (code == 0 <==> s.held[v] == DataBlocks(s.sizes[v]))
              && (code != 0 ==> code in DataBlocks(s.sizes[v]) && code !in s.held[v]
                                && Step(s, ev).s.held[v] == s.held[v] + {code})
    ensures s.loaded.Some? && ev.FreeBloc? ==>
              var v := s.loaded.value.0;
              var code := Step(s, ev).code;
              && (code == -1 <==> ev.bloc >= s.sizes[v])
              && (code == 1 <==> ev.bloc in s.held[v])
              && (code == 0 <==> ev.bloc < s.sizes[v] && ev.bloc !in s.held[v])
              && (code != 1 ==> Step(s, ev).s == s)
              && (code == 1 ==> Step(s, ev).s.held[v] == s.held[v] - {ev.bloc})
  {
    if s.loaded.Some? {
      var v := s.loaded.value.0;
      assert GoodVolume(s, v);
      var nodes := s.loaded.value.1.nodes;
      hide Apart;
      if ev.NewBloc? {
        if nodes != [] {
          assert nodes[0] in nodes;
          PopGood(nodes, s.pos, s.live, s.sizes[v], s.held[v]);
          assert s.pos[nodes[0]] in Blocks(nodes, s.pos);
        }
      }
      if ev.FreeBloc? {
        FindExact(nodes, s.pos, s.live, ev.bloc);
        assert ev.bloc in DataBlocks(s.sizes[v]) <==> ev.bloc < s.sizes[v];
      }
    }
  }

  /** A list that some other volume's allocations do not touch. */
  lemma OtherGood<N>(nodes: seq<N>, pos: map<N, nat>, live: set<N>, pos': map<N, nat>, live': set<N>, size: nat,
                     held: set<nat>)
    requires GoodList(nodes, pos, live, size, held)
    requires forall n :: n in nodes ==> n in live' && n in pos' && pos'[n] == pos[n]
    ensures GoodList(nodes, pos', live', size, held)
  {
    assert Blocks(nodes, pos') == Blocks(nodes, pos);
  }

  /** Volumes whose field `first`, nodes and held blocks are left alone stay good and apart. */
  lemma OthersGood<N>(s: Store<N>, t: Store<N>, v: nat)
    requires Inv(s) && |t.saved| == |s.saved| && |t.held| == |s.held| && t.sizes == s.sizes && v < |s.saved|
    requires forall w :: 0 <= w < |s.saved| && w != v ==> FirstOf(t, w) == FirstOf(s, w) && t.held[w] == s.held[w]
    requires forall n :: n in s.live && n !in NodesOf(s, v) ==> n in t.live
    requires forall n :: n in s.pos ==> n in t.pos && (n in s.live ==> t.pos[n] == s.pos[n])
    ensures forall w :: 0 <= w < |s.saved| && w != v ==> NodesOf(t, w) == NodesOf(s, w) && GoodVolume(t, w)
  {
    forall w | 0 <= w < |s.saved| && w != v ensures NodesOf(t, w) == NodesOf(s, w) && GoodVolume(t, w) {
      assert GoodVolume(s, w);
      assert forall n :: n in NodesOf(s, w) ==> n !in NodesOf(s, v);
      if FirstOf(s, w).Some? {
        hide Apart;
        OtherGood(FirstOf(s, w).value.nodes, s.pos, s.live, t.pos, t.live, s.sizes[w], s.held[w]);
      }
    }
  }

  /** One volume changes its nodes, keeping away from all others. */
  lemma ApartKept<N>(s: Store<N>, t: Store<N>, v: nat)
    requires Apart(s) && |t.saved| == |s.saved| && v < |s.saved|
    requires forall w :: 0 <= w < |s.saved| && w != v ==> NodesOf(t, w) == NodesOf(s, w)
    requires forall w, n :: 0 <= w < |s.saved| && w != v && n in NodesOf(s, w) ==> n !in NodesOf(t, v)
    ensures Apart(t)
  {
  }

  lemma KnownNodes<N>(s: Store<N>, w: nat)
    requires Inv(s) && w < |s.saved|
    ensures forall n :: n in NodesOf(s, w) ==> n in s.pos && n in s.live
  {
    assert GoodVolume(s, w);
  }

  /** A superblock in memory that is on the disk as it is may be forgotten. */
  lemma Forgotten<N>(s: Store<N>)
    requires Inv(s) && (s.loaded.None? || Synced(s))
    ensures var t := s.(loaded := None);
            && Inv(t)
            && (forall w :: 0 <= w < |s.saved| ==> FirstOf(t, w) == FirstOf(s, w))
            && (forall v: nat, got: seq<N> :: Enabled(s, Load(v, got)) ==>
                  Enabled(t, Load(v, got)) && LoadSuper(t, v, got) == LoadSuper(s, v, got))
  {
    SameFirsts(s, s.(loaded := None));
  }

  lemma LoadStep<N>(s: Store<N>, v: nat, got: seq<N>)
    requires Inv(s) && Enabled(s, Load(v, got)) && MayLoad(s, v)
    ensures Inv(LoadSuper(s, v, got).s)
  {
    Forgotten(s);
    var t := s.(loaded := None);
    if s.saved[v].None? {
      InitStep(t, v, got);
    } else {
      SameFirsts(t, LoadSuper(t, v, got).s);
    }
  }

  lemma StepInv<N>(s: Store<N>, ev: Event<N>)
    requires Inv(s) && Enabled(s, ev) && Disciplined(s, ev)
    ensures Step(s, ev).Done? && Inv(Step(s, ev).s)
  {
    CodesExact(s, ev);
    match ev
    case Load(v, got) => LoadStep(s, v, got);
    case Save => SameFirsts(s, SaveSuper(s).s);
    case NewBloc => if s.loaded.Some? { TakeStep(s); }
    case FreeBloc(b, n) => if s.loaded.Some? && Step(s, ev).code == 1 { GiveStep(s, b, n); }
  }

  /** Loading and saving move a field `first` between memory and disk. */
  lemma SameFirsts<N>(s: Store<N>, t: Store<N>)
    requires Inv(s) && WellFormed(t)
    requires t.sizes == s.sizes && t.held == s.held && t.pos == s.pos && t.live == s.live
    requires forall w :: 0 <= w < |s.saved| ==> FirstOf(t, w) == FirstOf(s, w)
    ensures Inv(t)
  {
    forall w | 0 <= w < |s.saved| ensures NodesOf(t, w) == NodesOf(s, w) && GoodVolume(t, w) {
      assert GoodVolume(s, w);
    }
  }

  lemma InitStep<N>(s: Store<N>, v: nat, got: seq<N>)
    requires Inv(s) && s.loaded.None? && Enabled(s, Load(v, got)) && s.saved[v].None? && s.sizes[v] >= 2
    ensures Inv(LoadSuper(s, v, got).s)
  {
    var t := LoadSuper(s, v, got).s;
    InitGood(got, s.pos, s.live, s.sizes[v]);
    assert GoodVolume(t, v);
    forall w, n | 0 <= w < |s.saved| && n in NodesOf(s, w) ensures n !in got {
      KnownNodes(s, w);
    }
    hide GoodList, GoodVolume;
    OthersGood(s, t, v);
    ApartKept(s, t, v);
  }

  lemma TakeStep<N>(s: Store<N>)
    requires Inv(s) && s.loaded.Some? && TakeBloc(s).Done?
    ensures Inv(TakeBloc(s).s)
  {
    var v := s.loaded.value.0;
    assert GoodVolume(s, v);
    var nodes := s.loaded.value.1.nodes;
    var t := TakeBloc(s).s;
    if nodes != [] {
      PopGood(nodes, s.pos, s.live, s.sizes[v], s.held[v]);
      assert nodes[0] in NodesOf(s, v);
      assert GoodVolume(t, v);
      forall w, n | 0 <= w < |s.saved| && w != v && n in NodesOf(s, w) ensures n !in NodesOf(t, v) {
      }
      hide GoodList, GoodVolume;
      OthersGood(s, t, v);
      ApartKept(s, t, v);
    }
  }

  lemma GiveStep<N>(s: Store<N>, b: nat, n: N)
    requires Inv(s) && s.loaded.Some? && n !in s.pos && b != 0
    requires GiveBloc(s, b, n).Done? && GiveBloc(s, b, n).code == 1
    ensures Inv(GiveBloc(s, b, n).s)
  {
    var v := s.loaded.value.0;
    assert GoodVolume(s, v);
    var nodes := s.loaded.value.1.nodes;
    var t := GiveBloc(s, b, n).s;
    FindExact(nodes, s.pos, s.live, b);
    PushGood(nodes, s.pos, s.live, s.sizes[v], s.held[v], n, b);
    assert GoodVolume(t, v);
    forall w, x | 0 <= w < |s.saved| && w != v && x in NodesOf(s, w) ensures x !in [n] + nodes {
      KnownNodes(s, w);
      assert nodes == NodesOf(s, v);
      assert x !in NodesOf(s, v);
    }
    hide GoodList, GoodVolume;
    OthersGood(s, t, v);
    ApartKept(s, t, v);
  }

  // ---- Runs -------------------------------------------------------------------------------------

  predicate DisciplinedRun<N(==)>(tr: seq<Store<N>>, evs: seq<Event<N>>, codes: seq<int>) {
    && IsRun(tr, evs, codes) && Inv(tr[0])
    && (forall i :: 0 <= i < |evs| ==> Disciplined(tr[i], evs[i]))
  }

  lemma RunAt<N>(tr: seq<Store<N>>, evs: seq<Event<N>>, codes: seq<int>, i: nat)
    requires DisciplinedRun(tr, evs, codes) && i < |evs|
    ensures WellFormed(tr[i]) && Enabled(tr[i], evs[i]) && Disciplined(tr[i], evs[i])
    ensures Step(tr[i], evs[i]) == Done(codes[i], tr[i + 1])
  {
  }

  /** Over any disciplined session every volume keeps a good list: free and held blocks partition its data
      blocks. */
  lemma {:induction false} RunInv<N>(tr: seq<Store<N>>, evs: seq<Event<N>>, codes: seq<int>, i: nat)
    requires DisciplinedRun(tr, evs, codes) && i <= |evs|
    ensures Inv(tr[i])
  {
    if i > 0 {
      hide Inv, Step, Enabled, Disciplined, WellFormed;
      RunAt(tr, evs, codes, i - 1);
      RunInv(tr, evs, codes, i - 1);
      StepInv(tr[i - 1], evs[i - 1]);
    }
  }

  /** The blocks on the free list of volume `v`, in order; a volume never initialised will get them all. */
  function FreeList<N>(s: Store<N>, v: nat): seq<nat>
    requires Inv(s) && v < |s.saved|
  {
    match FirstOf(s, v)
    case None => seq(InitCount(s.sizes[v]), i => i + 1)
    case Some(f) =>
      assert GoodVolume(s, v);
      seq(|f.nodes|, i requires 0 <= i < |f.nodes| => s.pos[f.nodes[i]])
  }

  /** What a call does to the list of the volume it works on. */
  function Effect<N>(l: seq<nat>, size: nat, ev: Event<N>): seq<nat> {
    match ev
    case NewBloc => if l == [] then l else l[1..]
    case FreeBloc(b, _) => if b >= size || b in l then l else [b] + l
    case _ => l
  }

  /** A list that is not touched, or moved between memory and disk. */
  lemma SameFreeList<N>(s: Store<N>, t: Store<N>, v: nat)
    requires Inv(s) && Inv(t) && v < |s.saved| && |t.saved| == |s.saved| && t.sizes == s.sizes
    requires FirstOf(t, v) == FirstOf(s, v)
    requires forall n :: n in NodesOf(s, v) ==> n in s.pos && n in t.pos && t.pos[n] == s.pos[n]
    ensures FreeList(t, v) == FreeList(s, v)
  {
    assert GoodVolume(s, v);
  }

  lemma FreshFreeList<N>(s: Store<N>, v: nat, got: seq<N>)
    requires Inv(s) && s.loaded.None? && Enabled(s, Load(v, got)) && s.saved[v].None? && s.sizes[v] >= 2
    ensures Inv(LoadSuper(s, v, got).s) && FreeList(LoadSuper(s, v, got).s, v) == FreeList(s, v)
  {
    InitStep(s, v, got);
  }

  lemma PoppedFreeList<N>(s: Store<N>, v: nat)
    requires Inv(s) && IsLoaded(s, v)
    ensures TakeBloc(s).Done? && Inv(TakeBloc(s).s)
    ensures FreeList(TakeBloc(s).s, v) == if FreeList(s, v) == [] then [] else FreeList(s, v)[1..]
  {
    StepInv(s, NewBloc);
    assert GoodVolume(s, v);
  }

  lemma PushedFreeList<N>(s: Store<N>, v: nat, b: nat, n: N)
    requires Inv(s) && IsLoaded(s, v) && n !in s.pos && (b < s.sizes[v] ==> b != 0)
    ensures GiveBloc(s, b, n).Done? && Inv(GiveBloc(s, b, n).s)
    ensures FreeList(GiveBloc(s, b, n).s, v) == Effect(FreeList(s, v), s.sizes[v], FreeBloc(b, n))
  {
    assert GoodVolume(s, v);
    StepInv(s, FreeBloc(b, n));
    KnownNodes(s, v);
    var nodes := s.loaded.value.1.nodes;
    var t := GiveBloc(s, b, n).s;
    FindExact(nodes, s.pos, s.live, b);
    ListedExact(s, v, b);
    if GiveBloc(s, b, n).code == 1 {
      hide Inv;
      assert FirstOf(t, v).value.nodes == [n] + nodes;
      assert FreeList(t, v)[0] == b;
      forall i | 0 <= i < |nodes| ensures FreeList(t, v)[i + 1] == FreeList(s, v)[i] {
        assert ([n] + nodes)[i + 1] == nodes[i] && nodes[i] in nodes;
      }
      assert FreeList(t, v) == [b] + FreeList(s, v);
    }
  }

  lemma FreeListStep<N>(s: Store<N>, ev: Event<N>, v: nat)
    requires Inv(s) && Enabled(s, ev) && Disciplined(s, ev) && v < |s.saved|
    ensures Step(s, ev).Done? && Inv(Step(s, ev).s) && |Step(s, ev).s.saved| == |s.saved|
    ensures Step(s, ev).s.sizes == s.sizes
    ensures FreeList(Step(s, ev).s, v) ==
            if IsLoaded(s, v) then Effect(FreeList(s, v), s.sizes[v], ev) else FreeList(s, v)
  {
    StepInv(s, ev);
    KnownNodes(s, v);
    if
    case ev.Load? && s.saved[ev.v].None? && ev.v == v =>
      Forgotten(s);
      FreshFreeList(s.(loaded := None), v, ev.got);
    case ev.NewBloc? && IsLoaded(s, v) => PoppedFreeList(s, v);
    case ev.FreeBloc? && IsLoaded(s, v) => PushedFreeList(s, v, ev.bloc, ev.node);
    case !(ev.Load? && s.saved[ev.v].None? && ev.v == v) && !((ev.NewBloc? || ev.FreeBloc?) && IsLoaded(s, v)) =>
      if ev.Load? { Forgotten(s); }
      SameFreeList(s, Step(s, ev).s, v);
  }

  lemma ListedExact<N>(s: Store<N>, v: nat, b: nat)
    requires Inv(s) && v < |s.saved| && FirstOf(s, v).Some?
    ensures FirstOf(s, v).value.List? && (forall n :: n in FirstOf(s, v).value.nodes ==> n in s.pos)
    ensures b in FreeList(s, v) <==> b in Blocks(FirstOf(s, v).value.nodes, s.pos)
  {
    assert GoodVolume(s, v);
    var nodes := FirstOf(s, v).value.nodes;
    if b in Blocks(nodes, s.pos) {
      var n :| n in nodes && s.pos[n] == b;
      var i :| 0 <= i < |nodes| && nodes[i] == n;
      assert FreeList(s, v)[i] == b;
    }
  }

  /** The calls made while `v` was loaded, in order. */
  function Own<N>(tr: seq<Store<N>>, evs: seq<Event<N>>, i: nat, v: nat): seq<Event<N>>
    requires i <= |evs| && |tr| == |evs| + 1
  {
    if i == 0 then []
    else Own(tr, evs, i - 1, v) + if IsLoaded(tr[i - 1], v) then [evs[i - 1]] else []
  }

  function Replay<N>(l: seq<nat>, size: nat, evs: seq<Event<N>>): seq<nat> {
    if evs == [] then l else Effect(Replay(l, size, evs[..|evs| - 1]), size, evs[|evs| - 1])
  }

  lemma ReplaySnoc<N>(l: seq<nat>, size: nat, evs: seq<Event<N>>, ev: Event<N>)
    ensures Replay(l, size, evs + [ev]) == Effect(Replay(l, size, evs), size, ev)
  {
  }

  /** Switching between volumes is invisible to each of them: after any disciplined session the free list
      of a volume is what its own calls made of it, whatever was loaded, allocated, freed and saved in
      between. */
  lemma {:induction false} Switching<N>(tr: seq<Store<N>>, evs: seq<Event<N>>, codes: seq<int>, i: nat, v: nat)
    requires DisciplinedRun(tr, evs, codes) && i <= |evs| && v < |tr[0].saved|
    ensures Inv(tr[i]) && |tr[i].saved| == |tr[0].saved| && tr[i].sizes == tr[0].sizes
    ensures FreeList(tr[i], v) == Replay(FreeList(tr[0], v), tr[0].sizes[v], Own(tr, evs, i, v))
  {
    RunInv(tr, evs, codes, i);
    if i > 0 {
      var j := i - 1;
      var own := Own(tr, evs, j, v);
      assert Own(tr, evs, i, v) == if IsLoaded(tr[j], v) then own + [evs[j]] else own;
      hide Inv, Step, Enabled, Disciplined, Effect, FreeList, DisciplinedRun, Replay, WellFormed, Own;
      RunInv(tr, evs, codes, j);
      RunAt(tr, evs, codes, j);
      Switching(tr, evs, codes, j, v);
      FreeListStep(tr[j], evs[j], v);
      if IsLoaded(tr[j], v) {
        ReplaySnoc(FreeList(tr[0], v), tr[0].sizes[v], own, evs[j]);
      }
    }
  }

  // ---- Nothing is handed out twice --------------------------------------------------------------

  /** Call `i` handed out block `b` of volume `v`; call `i` took it back. */
  predicate HandsOut<N>(tr: seq<Store<N>>, evs: seq<Event<N>>, codes: seq<int>, i: nat, v: nat, b: nat)
    requires i < |tr| && i < |evs| && i < |codes|
  {
    IsLoaded(tr[i], v) && evs[i].NewBloc? && codes[i] == b && b > 0
  }

  predicate TakesBack<N>(tr: seq<Store<N>>, evs: seq<Event<N>>, codes: seq<int>, i: nat, v: nat, b: nat)
    requires i < |tr| && i < |evs| && i < |codes|
  {
    IsLoaded(tr[i], v) && evs[i].FreeBloc? && evs[i].bloc == b && codes[i] == 1
  }

  lemma HeldStep<N>(s: Store<N>, ev: Event<N>, v: nat, b: nat)
    requires Inv(s) && Enabled(s, ev) && Disciplined(s, ev) && v < |s.held| && b in s.held[v]
    ensures Step(s, ev).Done? && v < |Step(s, ev).s.held|
    ensures b in Step(s, ev).s.held[v]
            || (IsLoaded(s, v) && ev.FreeBloc? && ev.bloc == b && Step(s, ev).code == 1)
  {
    CodesExact(s, ev);
    assert GoodVolume(s, v);
  }

  lemma {:induction false} HeldUntil<N>(tr: seq<Store<N>>, evs: seq<Event<N>>, codes: seq<int>, i: nat, j: nat,
                                        v: nat, b: nat)
    requires DisciplinedRun(tr, evs, codes) && i <= j <= |evs|
    requires v < |tr[i].held| && b in tr[i].held[v]
    requires forall k :: i <= k < j ==> !TakesBack(tr, evs, codes, k, v, b)
    ensures v < |tr[j].held| && b in tr[j].held[v]
    decreases j - i
  {
    if i < j {
      assert |tr| == |evs| + 1 && |codes| == |evs|;
      assert !TakesBack(tr, evs, codes, j - 1, v, b);
      hide Inv, Step, Enabled, Disciplined, DisciplinedRun, WellFormed;
      HeldUntil(tr, evs, codes, i, j - 1, v, b);
      RunInv(tr, evs, codes, j - 1);
      RunAt(tr, evs, codes, j - 1);
      HeldStep(tr[j - 1], evs[j - 1], v, b);
    }
  }

  /** Between two calls of new_bloc that return the same block of the same volume, a call of free_bloc took
      that block back. */
  lemma HandedOutOnce<N>(tr: seq<Store<N>>, evs: seq<Event<N>>, codes: seq<int>, i: nat, j: nat, v: nat, b: nat)
    requires DisciplinedRun(tr, evs, codes) && i < j < |evs|
    requires HandsOut(tr, evs, codes, i, v, b) && HandsOut(tr, evs, codes, j, v, b)
    ensures exists k :: i < k < j && TakesBack(tr, evs, codes, k, v, b)
  {
    RunInv(tr, evs, codes, i);
    RunAt(tr, evs, codes, i);
    CodesExact(tr[i], evs[i]);
    RunInv(tr, evs, codes, j);
    RunAt(tr, evs, codes, j);
    CodesExact(tr[j], evs[j]);
    if forall k :: i < k < j ==> !TakesBack(tr, evs, codes, k, v, b) {
      HeldUntil(tr, evs, codes, i + 1, j, v, b);
      assert false;
    }
  }

  // ---- Outside the discipline -------------------------------------------------------------------

  /** Among the nodes, a freed one comes before any of block `bloc`. */
  predicate Blocked<N(==)>(nodes: seq<N>, pos: map<N, nat>, live: set<N>, bloc: nat) {
    exists i :: 0 <= i < |nodes| && nodes[i] !in live && (forall j :: 0 <= j < i ==> Passed(nodes[j], pos, live, bloc))
  }

  predicate Passed<N(==)>(n: N, pos: map<N, nat>, live: set<N>, bloc: nat) {
    n in live && n in pos && pos[n] != bloc
  }

  lemma {:induction false} FindDangling<N>(nodes: seq<N>, pos: map<N, nat>, live: set<N>, bloc: nat)
    requires forall n :: n in nodes ==> n in pos
    ensures Find(nodes, pos, live, bloc) == Dangling <==> Blocked(nodes, pos, live, bloc)
  {
    if nodes != [] && Passed(nodes[0], pos, live, bloc) {
      FindDangling(nodes[1..], pos, live, bloc);
      if Blocked(nodes[1..], pos, live, bloc) {
        var i :| 0 <= i < |nodes| - 1 && nodes[1..][i] !in live
          && (forall j :: 0 <= j < i ==> Passed(nodes[1..][j], pos, live, bloc));
        forall j | 0 <= j <= i ensures Passed(nodes[j], pos, live, bloc) {
          assert j > 0 ==> nodes[j] == nodes[1..][j - 1];
        }
        assert nodes[i + 1] !in live;
      }
      if Blocked(nodes, pos, live, bloc) {
        var i :| 0 <= i < |nodes| && nodes[i] !in live
          && (forall j :: 0 <= j < i ==> Passed(nodes[j], pos, live, bloc));
        assert i > 0 && nodes[1..][i - 1] == nodes[i];
      }
    }
  }

  /** When a call, whatever its state, follows a NULL, freed or unassigned pointer: save_super with nothing in
      memory; new_bloc on a list never assigned or headed by a freed node; free_bloc on a block of the volume with a
      list never assigned, or in which a freed node comes before any node of the block; load_super never. */
  lemma CrashExact<N>(s: Store<N>, ev: Event<N>)
    requires WellFormed(s) && Enabled(s, ev)
    ensures Step(s, ev) == Crash <==>
            match s.loaded
            case None => ev.Save?
            case Some((v, Unset)) => ev.NewBloc? || (ev.FreeBloc? && ev.bloc < s.sizes[v])
            case Some((v, List(nodes))) =>
              || (ev.NewBloc? && nodes != [] && nodes[0] !in s.live)
              || (ev.FreeBloc? && ev.bloc < s.sizes[v] && Blocked(nodes, s.pos, s.live, ev.bloc))
  {
    if s.loaded.Some? && s.loaded.value.1.List? && ev.FreeBloc? {
      FindDangling(s.loaded.value.1.nodes, s.pos, s.live, ev.bloc);
    }
  }

  /** free_bloc accepts block 0, the superblock, which new_bloc then hands out under the code that means
      that no block is left. The lists stay good exactly when another block is given back. */
  lemma GiveExact<N>(s: Store<N>, b: nat, n: N)
    requires Inv(s) && s.loaded.Some? && n !in s.pos && b < s.sizes[s.loaded.value.0]
    ensures GiveBloc(s, b, n).Done?
    ensures Inv(GiveBloc(s, b, n).s) <==> b != 0
    ensures b == 0 ==> GiveBloc(s, b, n).code == 1 && TakeBloc(GiveBloc(s, b, n).s).Done?
                       && TakeBloc(GiveBloc(s, b, n).s).code == 0
  {
    var v := s.loaded.value.0;
    assert GoodVolume(s, v);
    FindExact(s.loaded.value.1.nodes, s.pos, s.live, b);
    if b == 0 {
      var t := GiveBloc(s, b, n).s;
      assert FirstOf(t, v).value.nodes[0] == n;
      assert !GoodVolume(t, v);
    } else {
      StepInv(s, FreeBloc(b, n));
    }
  }

  lemma TakeTracks<N>(s: Store<N>)
    requires Inv(s) && Tracks(s) && s.loaded.Some? && TakeBloc(s).Done? && WellFormed(TakeBloc(s).s)
    ensures Tracks(TakeBloc(s).s)
  {
    var v := s.loaded.value.0;
    assert GoodVolume(s, v);
    var nodes := s.loaded.value.1.nodes;
    var t := TakeBloc(s).s;
    if nodes != [] && s.saved[v].value.List? {
      var disk := s.saved[v].value.nodes;
      var i: nat, j: nat :| Behind(disk, nodes, s.live, i, j);
      hide Inv, GoodVolume;
      if j > 0 {
        assert Behind(disk, nodes[1..], t.live, i, j - 1);
      } else {
        assert disk[i] == disk[i..][0] == nodes[0];
        assert disk[i + 1..] == disk[i..][1..];
        assert Behind(disk, nodes[1..], t.live, i + 1, 0);
      }
    }
  }

  lemma GiveTracks<N>(s: Store<N>, b: nat, n: N)
    requires WellFormed(s) && Tracks(s) && s.loaded.Some? && n !in s.pos && GiveBloc(s, b, n).Done?
    requires WellFormed(GiveBloc(s, b, n).s)
    ensures Tracks(GiveBloc(s, b, n).s)
  {
    var v := s.loaded.value.0;
    if GiveBloc(s, b, n).code == 1 && s.saved[v].value.List? {
      var disk, nodes := s.saved[v].value.nodes, s.loaded.value.1.nodes;
      var i: nat, j: nat :| Behind(disk, nodes, s.live, i, j);
      assert Known(s.saved[v], s.pos);
      assert forall l :: 0 <= l < i ==> disk[l] in disk && disk[l] in s.pos;
      assert ([n] + nodes)[j + 1..] == nodes[j..];
      assert Behind(disk, [n] + nodes, s.live + {n}, i, j + 1);
    }
  }

  /** Every call keeps the disk a list left behind by the one in memory. */
  lemma TracksStep<N>(s: Store<N>, ev: Event<N>)
    requires Inv(s) && Tracks(s) && Enabled(s, ev) && Step(s, ev).Done? && WellFormed(Step(s, ev).s)
    ensures Tracks(Step(s, ev).s)
  {
    match ev
    case Load(v, got) =>
      var t := LoadSuper(s, v, got).s;
      if s.saved[v].Some? && s.saved[v].value.List? {
        assert Behind(s.saved[v].value.nodes, s.saved[v].value.nodes, s.live, 0, 0);
      }
      hide Inv;
    case Save => hide Inv;
    case NewBloc => if s.loaded.Some? { TakeTracks(s); }
    case FreeBloc(b, n) => if s.loaded.Some? { GiveTracks(s, b, n); }
  }

  /** A list on the disk that is good is the one in memory. */
  lemma BehindGood<N>(disk: seq<N>, memory: seq<N>, i: nat, j: nat, pos: map<N, nat>, live: set<N>, pos': map<N, nat>,
                      live': set<N>, size: nat, held: set<nat>)
    requires GoodList(memory, pos, live, size, held) && Behind(disk, memory, live, i, j)
    requires GoodList(disk, pos', live', size, held)
    requires forall n :: n in disk ==> n in pos && pos'[n] == pos[n] && (n in live' ==> n in live)
    ensures disk == memory
  {
    assert disk != [] ==> disk[0] in disk;
    assert disk == memory[j..];
    NoneBefore(memory, j, pos);
    assert Blocks(memory[j..], pos) == Blocks(disk, pos');
  }

  /** A proper suffix of a list of distinct blocks has fewer blocks. */
  lemma NoneBefore<N>(memory: seq<N>, j: nat, pos: map<N, nat>)
    requires j <= |memory| && (forall n :: n in memory ==> n in pos)
    requires forall a, b :: 0 <= a < b < |memory| ==> pos[memory[a]] != pos[memory[b]]
    ensures forall n :: n in memory[j..] ==> n in pos
    ensures Blocks(memory[j..], pos) == Blocks(memory, pos) ==> j == 0
  {
    if j > 0 {
      assert pos[memory[0]] in Blocks(memory, pos);
      forall n | n in memory[j..] ensures pos[n] != pos[memory[0]] {
        var l :| 0 <= l < |memory[j..]| && memory[j..][l] == n;
        assert memory[j + l] == n;
      }
    }
  }

  /** Loading keeps every list exactly when the list in memory, if there is one, is on the disk as it is, and
      the volume has two blocks or more if a list has to be made for it. */
  lemma LoadExact<N>(s: Store<N>, v: nat, got: seq<N>)
    requires Inv(s) && Tracks(s) && Enabled(s, Load(v, got))
    ensures Inv(LoadSuper(s, v, got).s) <==> MayLoad(s, v)
  {
    if MayLoad(s, v) {
      LoadStep(s, v, got);
    } else if s.loaded.None? || Synced(s) {
      var t := LoadSuper(s, v, got).s;
      InitGoodExact(got, s.pos, s.live, s.sizes[v]);
      assert FirstOf(t, v) == Some(List(got)) && !GoodVolume(t, v);
    } else {
      LostList(s, v, got);
    }
  }

  lemma LostList<N>(s: Store<N>, v: nat, got: seq<N>)
    requires Inv(s) && Tracks(s) && Enabled(s, Load(v, got)) && s.loaded.Some? && !Synced(s)
    ensures !Inv(LoadSuper(s, v, got).s)
  {
    var w := s.loaded.value.0;
    var t := LoadSuper(s, v, got).s;
    assert GoodVolume(s, w) && (Inv(t) ==> GoodVolume(t, w));
    assert FirstOf(t, w) == s.saved[w];
    if s.saved[w].value.List? && GoodVolume(t, w) {
      var disk, memory := s.saved[w].value.nodes, s.loaded.value.1.nodes;
      var i: nat, j: nat :| Behind(disk, memory, s.live, i, j);
      assert Known(s.saved[w], s.pos);
      assert t.held[w] == s.held[w] && t.sizes == s.sizes;
      forall n | n in disk ensures n in s.pos && t.pos[n] == s.pos[n] && (n in t.live ==> n in s.live) {
        assert s.saved[v].None? ==> n !in got;
      }
      hide Inv, Apart;
      BehindGood(disk, memory, i, j, s.pos, s.live, t.pos, t.live, s.sizes[w], s.held[w]);
    }
  }

  /** One call keeps the lists of all volumes exactly when it is disciplined. */
  lemma StepExact<N>(s: Store<N>, ev: Event<N>)
    requires Inv(s) && Tracks(s) && Enabled(s, ev) && Step(s, ev).Done?
    ensures Inv(Step(s, ev).s) <==> Disciplined(s, ev)
    ensures WellFormed(Step(s, ev).s) ==> Tracks(Step(s, ev).s)
  {
    if WellFormed(Step(s, ev).s) { TracksStep(s, ev); }
    match ev
    case Load(v, got) => LoadExact(s, v, got);
    case Save => StepInv(s, ev);
    case NewBloc => StepInv(s, ev);
    case FreeBloc(b, n) =>
      if s.loaded.Some? && b < s.sizes[s.loaded.value.0] {
        GiveExact(s, b, n);
      } else {
        hide Tracks;
      }
  }

  /** Over every session without a crash, all volumes keep good lists exactly when every call is
      disciplined. */
  lemma RunExact<N>(tr: seq<Store<N>>, evs: seq<Event<N>>, codes: seq<int>)
    requires IsRun(tr, evs, codes) && Inv(tr[0]) && Tracks(tr[0])
    ensures (forall i :: 0 <= i < |tr| ==> Inv(tr[i])) <==>
            (forall i :: 0 <= i < |evs| ==> Disciplined(tr[i], evs[i]))
  {
    hide Inv, Step, Enabled, Disciplined, WellFormed, Tracks;
    if forall i :: 0 <= i < |evs| ==> Disciplined(tr[i], evs[i]) {
      forall i | 0 <= i < |tr| ensures Inv(tr[i]) {
        RunInv(tr, evs, codes, i);
      }
    }
    if forall i :: 0 <= i < |tr| ==> Inv(tr[i]) {
      forall i | 0 <= i < |evs| ensures Disciplined(tr[i], evs[i]) {
        TracksRun(tr, evs, codes, i);
        StepAt(tr, evs, codes, i);
        assert Inv(tr[i + 1]);
        StepExact(tr[i], evs[i]);
      }
    }
  }

  lemma StepAt<N>(tr: seq<Store<N>>, evs: seq<Event<N>>, codes: seq<int>, i: nat)
    requires IsRun(tr, evs, codes) && i < |evs|
    ensures WellFormed(tr[i]) && Enabled(tr[i], evs[i]) && Step(tr[i], evs[i]) == Done(codes[i], tr[i + 1])
  {
  }

  lemma InvFormed<N>(s: Store<N>)
    requires Inv(s)
    ensures WellFormed(s)
  {
  }

  lemma {:induction false} TracksRun<N>(tr: seq<Store<N>>, evs: seq<Event<N>>, codes: seq<int>, i: nat)
    requires IsRun(tr, evs, codes) && Inv(tr[0]) && WellFormed(tr[0]) && Tracks(tr[0]) && i <= |evs|
    requires forall j :: 0 <= j < |tr| ==> Inv(tr[j])
    ensures WellFormed(tr[i]) && Tracks(tr[i])
  {
    if i > 0 {
      InvFormed(tr[i]);
      hide Inv, Step, Enabled, WellFormed, Tracks;
      TracksRun(tr, evs, codes, i - 1);
      StepAt(tr, evs, codes, i - 1);
      TracksStep(tr[i - 1], evs[i - 1]);
    }
  }

  /** Loading a volume again without saving it first: if a block was taken meanwhile, the list found on the
      disk begins with a freed node, and the next call of new_bloc follows it. */
  lemma ReloadUnsaved<N>(s: Store<N>, v: nat, got: seq<N>)
    requires Inv(s) && Enabled(s, Load(v, got)) && IsLoaded(s, v)
    requires s.saved[v] == Some(s.loaded.value.1) && FreeList(s, v) != []
    ensures TakeBloc(s).Done? && Enabled(TakeBloc(s).s, Load(v, got))
    ensures LoadSuper(TakeBloc(s).s, v, got).Done? && TakeBloc(LoadSuper(TakeBloc(s).s, v, got).s) == Crash
    ensures !Inv(LoadSuper(TakeBloc(s).s, v, got).s)
  {
    assert GoodVolume(s, v);
    var nodes := s.loaded.value.1.nodes;
    assert Behind(nodes, nodes, s.live, 0, 0);
    StepInv(s, NewBloc);
    TakeTracks(s);
    assert nodes[1..] != nodes;
    LoadExact(TakeBloc(s).s, v, got);
    hide Inv;
  }

  /** Right after its initialisation the superblock on the disk has no list yet: loaded again before being
      saved, the volume is unusable. */
  lemma ReloadInitialised<N>(s: Store<N>, v: nat, got: seq<N>, got': seq<N>)
    requires Inv(s) && MayLoad(s, v) && Enabled(s, Load(v, got)) && s.saved[v].None?
    ensures LoadSuper(s, v, got).Done? && WellFormed(LoadSuper(s, v, got).s)
    ensures Enabled(LoadSuper(s, v, got).s, Load(v, got'))
    ensures var t := LoadSuper(LoadSuper(s, v, got).s, v, got');
            t.Done? && WellFormed(t.s) && TakeBloc(t.s) == Crash && !Inv(t.s)
  {
    LoadStep(s, v, got);
    LoadExact(LoadSuper(s, v, got).s, v, got');
  }

  // ---- Small volumes ----------------------------------------------------------------------------

  /** The list made for a new volume is good exactly when the volume has two blocks or more. */
  lemma InitGoodExact<N>(got: seq<N>, pos: map<N, nat>, live: set<N>, size: nat)
    requires |got| == InitCount(size) && Distinct(got)
    ensures GoodList(got, pos + InitPos(got), live + (set n | n in got), size, {}) <==> size >= 2
  {
    if size >= 2 {
      InitGood(got, pos, live, size);
    } else {
      assert got[0] in got && (pos + InitPos(got))[got[0]] == 1;
    }
  }

  /** A smaller volume hands out its block 1, which it does not have. */
  lemma SmallVolume<N>(s: Store<N>, v: nat, got: seq<N>)
    requires WellFormed(s) && Enabled(s, Load(v, got)) && s.saved[v].None? && s.sizes[v] < 2
    ensures WellFormed(LoadSuper(s, v, got).s) && TakeBloc(LoadSuper(s, v, got).s).Done?
    ensures TakeBloc(LoadSuper(s, v, got).s).code == 1 >= s.sizes[v]
  {
    assert got[0] in got;
  }
}

/** src/includes/superbloc.c over its globals, the memory of the list nodes and the disk. Every call is
    proved to have the effect SuperblocSpec gives it, and init_volume to write exactly the blocks it should.
    The methods ask for no discipline: whatever a caller does, they do what the C code does. */
module Superbloc {
  import opened Collections
  import opened Drive
  import opened Partition
  import opened Volume
  import opened SuperblocSpec

  datatype Result = Returned(code: int) | Crashed

  /** superbloc_s without its magic number, which the form of the sector stands for, and its name. */
  datatype Superblock<N> = Superblock(serial: int, first: Pointer<N>)

  function Top<N>(nodes: seq<N>): Pointer<N> {
    if nodes == [] then Null else To(nodes[0])
  }

  /** The pointer of the node at position `i` of a list. */
  function Below<N>(nodes: seq<N>, i: nat): Pointer<N>
    requires i < |nodes|
  {
    if i + 1 < |nodes| then To(nodes[i + 1]) else Null
  }

  /** `next` leads from `p` through the nodes to NULL. */
  predicate ListRep<N(==)>(p: Pointer<N>, nodes: seq<N>, next: map<N, Pointer<N>>) {
    && p == Top(nodes)
    && (forall i :: 0 <= i < |nodes| ==> nodes[i] in next && next[nodes[i]] == Below(nodes, i))
  }

  predicate FirstRep<N(==)>(p: Pointer<N>, f: First<N>, next: map<N, Pointer<N>>) {
    match f
    case Unset => p == Wild
    case List(nodes) => ListRep(p, nodes, next)
  }

  predicate SavedRep<N(==)>(x: Sector<N>, f: Option<First<N>>, next: map<N, Pointer<N>>) {
    match f
    case None => !HasMagic(x)
    case Some(g) => HasMagic(x) && FirstRep(FirstField(x), g, next)
  }

  predicate DiskRep<N(==)>(t: Table, platter: seq<Sector<N>>, sizes: seq<nat>, saved: seq<Option<First<N>>>,
                           next: map<N, Pointer<N>>)
    requires PartInv(t) && |platter| == HDA_SECTORS
  {
    && |sizes| == |saved| == |t|
    && (forall v :: 0 <= v < |t| ==> Sound(t[v]) && sizes[v] == t[v].nbBlocs
                                     && SavedRep(platter[Start(t[v])], saved[v], next))
  }

  // ---- Lists ------------------------------------------------------------------------------------

  lemma DiskKept<N>(t: Table, platter: seq<Sector<N>>, sizes: seq<nat>, saved: seq<Option<First<N>>>,
                    next: map<N, Pointer<N>>, next': map<N, Pointer<N>>)
    requires PartInv(t) && |platter| == HDA_SECTORS && DiskRep(t, platter, sizes, saved, next)
    requires forall n :: n in next ==> n in next' && next'[n] == next[n]
    ensures DiskRep(t, platter, sizes, saved, next')
  {
  }

  /** Writing inside one volume, starting with its first block. */
  lemma DiskChanged<N>(t: Table, platter: seq<Sector<N>>, platter': seq<Sector<N>>, sizes: seq<nat>,
                       saved: seq<Option<First<N>>>, next: map<N, Pointer<N>>, v: nat, f: First<N>)
    requires PartInv(t) && |platter| == |platter'| == HDA_SECTORS && v < |t|
    requires DiskRep(t, platter, sizes, saved, next)
    requires Sound(t[v]) && SavedRep(platter'[Start(t[v])], Some(f), next)
    requires forall i :: 0 <= i < HDA_SECTORS && !(Start(t[v]) <= i < End(t[v])) ==> platter'[i] == platter[i]
    ensures DiskRep(t, platter', sizes, saved[v := Some(f)], next)
  {
  }

  // ---- What users of the disk may do -------------------------------------------------------------

  /** A write anywhere on the disk leaves the superblocks of all volumes alone exactly when it does not fall on
      the first sector of one, or stores there what stands for the same list. */
  lemma SectorWriteExact<N>(t: Table, platter: seq<Sector<N>>, sizes: seq<nat>, saved: seq<Option<First<N>>>,
                            next: map<N, Pointer<N>>, p: nat, x: Sector<N>)
    requires PartInv(t) && |platter| == HDA_SECTORS && DiskRep(t, platter, sizes, saved, next) && p < HDA_SECTORS
    ensures DiskRep(t, platter[p := x], sizes, saved, next) <==>
            forall w :: 0 <= w < |t| && Start(t[w]) == p ==> SavedRep(x, saved[w], next)
  {
    hide SavedRep;
  }

  /** Inside its volume this asks for a block other than block 0, or for an equivalent image. */
  lemma BlockWriteExact<N>(t: Table, platter: seq<Sector<N>>, sizes: seq<nat>, saved: seq<Option<First<N>>>,
                           next: map<N, Pointer<N>>, v: nat, b: nat, x: Sector<N>)
    requires PartInv(t) && |platter| == HDA_SECTORS && DiskRep(t, platter, sizes, saved, next) && InRange(t, v, b)
    ensures DiskRep(t, platter[Place(t, v, b) := x], sizes, saved, next) <==> b != 0 || SavedRep(x, saved[v], next)
  {
  }

  /** Formatting a volume takes its superblock away and leaves those of the others, exactly when the value does
      not read as the magic number; otherwise the volume has a superblock whose list was never assigned. */
  lemma FormatExact<N>(t: Table, platter: seq<Sector<N>>, sizes: seq<nat>, saved: seq<Option<First<N>>>,
                       next: map<N, Pointer<N>>, v: nat, value: bv32)
    requires PartInv(t) && |platter| == HDA_SECTORS && DiskRep(t, platter, sizes, saved, next) && v < |t|
    ensures Sound(t[v])
    ensures var platter' := Fill(platter, Start(t[v]), t[v].nbBlocs, Filled(value));
            && (DiskRep(t, platter', sizes, saved[v := None], next) <==> value != FILL_MAGIC)
            && (DiskRep(t, platter', sizes, saved[v := Some(Unset)], next) <==> value == FILL_MAGIC)
  {
    var platter' := Fill(platter, Start(t[v]), t[v].nbBlocs, Filled(value));
    assert platter'[Start(t[v])] == Filled(value);
    assert Sound(t[v]) && forall w :: 0 <= w < |t| && w != v ==> platter'[Start(t[w])] == platter[Start(t[w])];
    hide PartInv, Fill, Start;
  }

  /** A volume just created counts as never initialised exactly when the first sector it was given does not begin
      with the magic number, as a superblock or a list node left by a deleted volume does. */
  lemma NewIsBlankExact<N>(t: Table, platter: seq<Sector<N>>, sizes: seq<nat>, saved: seq<Option<First<N>>>,
                           next: map<N, Pointer<N>>, n: nat)
    requires PartInv(t) && |platter| == HDA_SECTORS && DiskRep(t, platter, sizes, saved, next)
    requires |t| < MAX_VOLUMES && Fits(t, Partition.New(n))
    ensures PartInv(NewTable(t, n)) && 0 <= NextFree(t) < HDA_SECTORS
    ensures DiskRep(NewTable(t, n), platter, sizes + [n], saved + [None], next) <==> !HasMagic(platter[NextFree(t)])
  {
    NewExact(t, n);
    var t' := NewTable(t, n);
    assert t'[|t|].nbBlocs == n && Start(t'[|t|]) == NextFree(t) && Sound(t'[|t|]);
    assert SavedRep(platter[NextFree(t)], None, next) <==> !HasMagic(platter[NextFree(t)]);
    forall w | 0 <= w < |t|
      ensures t'[w] == t[w] && Sound(t[w]) && (sizes + [n])[w] == sizes[w] && (saved + [None])[w] == saved[w]
    {
    }
    assert (saved + [None])[|t|] == None;
    hide SavedRep, PartInv, Sound, NewTable, Start;
  }

  // ---- Initialisation ---------------------------------------------------------------------------

  /** What init_volume writes: the superblock before its list is known, then node `k` on block `k`, its link
      already set. */
  function InitBlocks<N>(serial: int, got: seq<N>): (r: seq<Sector<N>>)
    ensures |r| == |got| + 1 && r[0] == SuperImage(serial, Wild)
    ensures forall k :: 1 <= k <= |got| ==> r[k] == NodeImage(k, Below(got, k - 1))
  {
    [SuperImage(serial, Wild)] + seq(|got|, i requires 0 <= i < |got| => NodeImage(i + 1, Below(got, i)))
  }

  lemma BurstOne<T>(platter: seq<T>, at: nat, buffer: seq<T>, n: nat)
    requires n < |buffer| && at + n < |platter|
    ensures Burst(platter, at, buffer, n)[at + n := buffer[n]] == Burst(platter, at, buffer, n + 1)
  {
  }

  /** The node memory once the first `n` nodes of `got` have been created and linked. */
  function GrowPos<N>(posBloc: map<N, nat>, got: seq<N>, n: nat): map<N, nat>
    requires n <= |got|
  {
    if n == 0 then posBloc else GrowPos(posBloc, got, n - 1)[got[n - 1] := n]
  }

  function GrowNext<N>(next: map<N, Pointer<N>>, got: seq<N>, n: nat): map<N, Pointer<N>>
    requires n <= |got|
  {
    if n == 0 then next
    else if n == 1 then next[got[0] := Null]
    else GrowNext(next, got, n - 1)[got[n - 1] := Null][got[n - 2] := To(got[n - 1])]
  }

  function GrowLive<N>(live: set<N>, got: seq<N>, n: nat): set<N>
    requires n <= |got|
  {
    if n == 0 then live else GrowLive(live, got, n - 1) + {got[n - 1]}
  }

  function Elements<N>(s: seq<N>): set<N> {
    set x | x in s
  }

  lemma {:induction false} GrowKeys<N>(posBloc: map<N, nat>, next: map<N, Pointer<N>>, live: set<N>, got: seq<N>,
                                       n: nat)
    requires n <= |got|
    ensures GrowPos(posBloc, got, n).Keys == posBloc.Keys + Elements(got[..n])
    ensures GrowNext(next, got, n).Keys == next.Keys + Elements(got[..n])
    ensures GrowLive(live, got, n) == live + Elements(got[..n])
  {
    if n > 0 {
      GrowKeys(posBloc, next, live, got, n - 1);
      TakeMore(got, n);
      assert n > 1 ==> got[n - 2] in got[..n - 1] by { assert n > 1 ==> got[..n - 1][n - 2] == got[n - 2]; }
    } else {
      assert got[..n] == [];
    }
  }

  lemma TakeMore<N>(got: seq<N>, n: nat)
    requires 0 < n <= |got|
    ensures Elements(got[..n]) == Elements(got[..n - 1]) + {got[n - 1]}
  {
    assert got[..n] == got[..n - 1] + [got[n - 1]];
  }

  lemma {:induction false} GrowPosAt<N>(posBloc: map<N, nat>, got: seq<N>, n: nat, i: nat)
    requires i < n <= |got| && Distinct(got)
    ensures got[i] in GrowPos(posBloc, got, n) && GrowPos(posBloc, got, n)[got[i]] == i + 1
  {
    if i < n - 1 {
      GrowPosAt(posBloc, got, n - 1, i);
    }
  }

  lemma {:induction false} GrowNextAt<N>(next: map<N, Pointer<N>>, got: seq<N>, n: nat, i: nat)
    requires i < n <= |got| && Distinct(got)
    ensures got[i] in GrowNext(next, got, n)
    ensures GrowNext(next, got, n)[got[i]] == if i == n - 1 then Null else Below(got, i)
  {
    if i < n - 1 {
      GrowNextAt(next, got, n - 1, i);
    }
  }

  lemma {:induction false} GrowKeeps<N>(posBloc: map<N, nat>, next: map<N, Pointer<N>>, got: seq<N>, n: nat, x: N)
    requires n <= |got| && x !in got
    ensures x in posBloc ==> x in GrowPos(posBloc, got, n) && GrowPos(posBloc, got, n)[x] == posBloc[x]
    ensures x in next ==> x in GrowNext(next, got, n) && GrowNext(next, got, n)[x] == next[x]
  {
    if n > 0 {
      GrowKeeps(posBloc, next, got, n - 1, x);
    }
  }

  predicate NewNodes<N(==)>(got: seq<N>, posBloc: map<N, nat>, next: map<N, Pointer<N>>) {
    Distinct(got) && (forall x :: x in got ==> x !in posBloc && x !in next)
  }

  /** The node memory of the loop of init_volume when `n` nodes exist. */
  predicate Built<N(==)>(posBloc: map<N, nat>, next: map<N, Pointer<N>>, live: set<N>, posBloc0: map<N, nat>,
                         next0: map<N, Pointer<N>>, live0: set<N>, got: seq<N>, n: nat)
    requires n <= |got|
  {
    && posBloc == GrowPos(posBloc0, got, n)
    && next == GrowNext(next0, got, n)
    && live == GrowLive(live0, got, n)
  }

  lemma BuiltNext<N>(posBloc: map<N, nat>, next: map<N, Pointer<N>>, live: set<N>, posBloc0: map<N, nat>,
                     next0: map<N, Pointer<N>>, live0: set<N>, got: seq<N>)
    requires Built(posBloc, next, live, posBloc0, next0, live0, got, |got|)
    ensures next == GrowNext(next0, got, |got|)
  {
  }

  lemma BuiltFirst<N>(posBloc: map<N, nat>, next: map<N, Pointer<N>>, live: set<N>, got: seq<N>)
    requires got != [] && NewNodes(got, posBloc, next)
    ensures got[0] !in posBloc
    ensures Built(posBloc[got[0] := 1], next[got[0] := Null], live + {got[0]}, posBloc, next, live, got, 1)
  {
  }

  /** Node `n` is linked after the last one. */
  lemma BuiltStep<N>(posBloc: map<N, nat>, next: map<N, Pointer<N>>, live: set<N>, posBloc0: map<N, nat>,
                     next0: map<N, Pointer<N>>, live0: set<N>, got: seq<N>, n: nat)
    requires 1 <= n < |got| && NewNodes(got, posBloc0, next0)
    requires Built(posBloc, next, live, posBloc0, next0, live0, got, n)
    ensures got[n] !in posBloc && got[n - 1] != got[n] && got[n - 1] in posBloc && posBloc[got[n - 1]] == n
    ensures Built(posBloc[got[n] := n + 1], next[got[n] := Null][got[n - 1] := To(got[n])], live + {got[n]},
                  posBloc0, next0, live0, got, n + 1)
  {
    GrowPosAt(posBloc0, got, n, n - 1);
    GrowKeys(posBloc0, next0, live0, got, n);
    assert got[n] in got && got[n] !in got[..n];
  }

  lemma BuiltLast<N>(posBloc: map<N, nat>, next: map<N, Pointer<N>>, live: set<N>, posBloc0: map<N, nat>,
                     next0: map<N, Pointer<N>>, live0: set<N>, got: seq<N>)
    requires got != [] && NewNodes(got, posBloc0, next0)
    requires Built(posBloc, next, live, posBloc0, next0, live0, got, |got|)
    ensures got[|got| - 1] in posBloc && posBloc[got[|got| - 1]] == |got|
    ensures got[|got| - 1] in next && next[got[|got| - 1]] == Below(got, |got| - 1)
  {
  }

  lemma AllPos<N>(posBloc: map<N, nat>, got: seq<N>)
    requires Distinct(got) && GrowPos(posBloc, got, |got|).Keys == posBloc.Keys + Elements(got)
    ensures GrowPos(posBloc, got, |got|) == posBloc + InitPos(got)
  {
    forall x | x in GrowPos(posBloc, got, |got|)
      ensures GrowPos(posBloc, got, |got|)[x] == (posBloc + InitPos(got))[x]
    {
      if x in got {
        var i :| 0 <= i < |got| && got[i] == x;
        GrowPosAt(posBloc, got, |got|, i);
      } else {
        GrowKeeps(posBloc, map[], got, |got|, x);
      }
    }
  }

  lemma AllNext<N>(next: map<N, Pointer<N>>, got: seq<N>)
    requires got != [] && Distinct(got) && (forall x :: x in got ==> x !in next)
    ensures forall x :: x in next ==> x in GrowNext(next, got, |got|) && GrowNext(next, got, |got|)[x] == next[x]
    ensures ListRep(To(got[0]), got, GrowNext(next, got, |got|))
  {
    forall x | x in next ensures x in GrowNext(next, got, |got|) && GrowNext(next, got, |got|)[x] == next[x] {
      GrowKeeps(map[], next, got, |got|, x);
    }
    forall i | 0 <= i < |got|
      ensures got[i] in GrowNext(next, got, |got|) && GrowNext(next, got, |got|)[got[i]] == Below(got, i)
    {
      GrowNextAt(next, got, |got|, i);
    }
  }

  /** All nodes built: the list 1, 2, .., |got| linked in order, and nothing else changed. */
  lemma BuiltAll<N>(posBloc': map<N, nat>, next': map<N, Pointer<N>>, live': set<N>, posBloc: map<N, nat>,
                    next: map<N, Pointer<N>>, live: set<N>, got: seq<N>)
    requires got != [] && NewNodes(got, posBloc, next)
    requires Built(posBloc', next', live', posBloc, next, live, got, |got|)
    ensures posBloc' == posBloc + InitPos(got)
    ensures live' == live + (set n | n in got)
    ensures next'.Keys == next.Keys + (set n | n in got)
    ensures forall x :: x in next ==> next'[x] == next[x]
    ensures ListRep(To(got[0]), got, next')
  {
    assert got[..|got|] == got;
    GrowKeys(posBloc, next, live, got, |got|);
    hide GrowPos, GrowNext, GrowLive, ListRep;
    AllPos(posBloc, got);
    AllNext(next, got);
  }

  lemma BurstFirst<T>(platter: seq<T>, at: nat, buffer: seq<T>)
    requires buffer != [] && at < |platter|
    ensures platter[at := buffer[0]] == Burst(platter, at, buffer, 1)
  {
  }

  // ---- What the methods need to know ------------------------------------------------------------

  ghost function LoadedState<N>(s: Store<N>, v: nat, got: seq<N>): (t: Store<N>)
    requires SuperblocSpec.WellFormed(s) && Enabled(s, Load(v, got))
    ensures SuperblocSpec.LoadSuper(s, v, got) == Done(v, t)
  {
    SuperblocSpec.LoadSuper(s, v, got).s
  }

  ghost function SavedState<N>(s: Store<N>): Store<N>
    requires SuperblocSpec.WellFormed(s) && s.loaded.Some?
  {
    SuperblocSpec.SaveSuper(s).s
  }

  ghost function TakenState<N>(s: Store<N>): Store<N>
    requires SuperblocSpec.WellFormed(s) && TakeBloc(s).Done?
  {
    TakeBloc(s).s
  }

  ghost function GivenState<N>(s: Store<N>, bloc: nat, node: N): Store<N>
    requires SuperblocSpec.WellFormed(s) && node !in s.pos && GiveBloc(s, bloc, node).Done?
  {
    GiveBloc(s, bloc, node).s
  }

  /** The sectors after load_super: those of an initialisation if there was no superblock, else unchanged. */
  ghost function PlatterLoaded<N>(d: seq<Sector<N>>, t: Table, vol: nat, saved: seq<Option<First<N>>>, serial: int,
                                  got: seq<N>): seq<Sector<N>>
  {
    if vol < |t| && vol < |saved| && saved[vol].None? && 0 <= Start(t[vol]) < |d|
    then Burst(d, Start(t[vol]), InitBlocks(serial, got), |got| + 1)
    else d
  }

  lemma LoadFacts<N>(t: Table, platter: seq<Sector<N>>, s: Store<N>, next: map<N, Pointer<N>>, vol: nat, got: seq<N>,
                     posBloc: map<N, nat>)
    requires PartInv(t) && |platter| == HDA_SECTORS && SuperblocSpec.WellFormed(s) && Enabled(s, Load(vol, got))
    requires DiskRep(t, platter, s.sizes, s.saved, next) && posBloc == s.pos && next.Keys == posBloc.Keys
    ensures vol < |t| && vol < |s.saved| && vol < |s.sizes| && 0 <= Start(t[vol]) < HDA_SECTORS
    ensures HasMagic(platter[Start(t[vol])]) <==> s.saved[vol].Some?
    ensures s.saved[vol].Some? ==>
              var u := LoadedState(s, vol, got);
              && FirstRep(FirstField(platter[Start(t[vol])]), s.saved[vol].value, next)
              && u.loaded == Some((vol, s.saved[vol].value)) && u.saved == s.saved && u.sizes == s.sizes
              && u.pos == s.pos && u.live == s.live && SuperblocSpec.WellFormed(u)
    ensures s.saved[vol].None? ==>
              && NewNodes(got, posBloc, next) && |got| == InitCount(t[vol].nbBlocs)
              && (s.sizes[vol] >= 2 ==> Start(t[vol]) + |got| < HDA_SECTORS)
  {
  }

  lemma InitFacts<N>(t: Table, d0: seq<Sector<N>>, d1: seq<Sector<N>>, s: Store<N>, p0: map<N, nat>,
                     n0: map<N, Pointer<N>>, l0: set<N>, p1: map<N, nat>, n1: map<N, Pointer<N>>, l1: set<N>,
                     vol: nat, serial: int, got: seq<N>)
    requires PartInv(t) && |d0| == HDA_SECTORS && SuperblocSpec.WellFormed(s) && Enabled(s, Load(vol, got))
    requires DiskRep(t, d0, s.sizes, s.saved, n0) && p0 == s.pos && l0 == s.live && n0.Keys == p0.Keys
    requires vol < |t| && s.saved[vol].None? && s.sizes[vol] >= 2 && NewNodes(got, p0, n0)
    requires Built(p1, n1, l1, p0, n0, l0, got, |got|)
    requires 0 <= Start(t[vol]) < HDA_SECTORS && d1 == Burst(d0, Start(t[vol]), InitBlocks(serial, got), |got| + 1)
    ensures var u := LoadedState(s, vol, got);
            && SuperblocSpec.WellFormed(u) && u.loaded == Some((vol, List(got)))
            && p1 == u.pos && l1 == u.live && n1.Keys == p1.Keys
            && FirstRep(Top(got), List(got), n1)
            && DiskRep(t, d1, u.sizes, u.saved, n1)
    ensures d1 == PlatterLoaded(d0, t, vol, s.saved, serial, got)
  {
    assert Sound(t[vol]);
    BuiltAll(p1, n1, l1, p0, n0, l0, got);
    DiskKept(t, d0, s.sizes, s.saved, n0, n1);
    var at := Start(t[vol]);
    assert d1[at] == InitBlocks(serial, got)[0];
    InitInside(t, vol, d0, d1, serial, got);
    DiskChanged(t, d0, d1, s.sizes, s.saved, n1, vol, Unset);
    InitWellFormed(s, vol, got);
  }

  /** The same, if the volume is large enough. */
  lemma FreshFacts<N>(t: Table, d0: seq<Sector<N>>, d1: seq<Sector<N>>, s: Store<N>, p0: map<N, nat>,
                      n0: map<N, Pointer<N>>, l0: set<N>, p1: map<N, nat>, n1: map<N, Pointer<N>>, l1: set<N>,
                      vol: nat, serial: int, got: seq<N>)
    requires PartInv(t) && |d0| == HDA_SECTORS && SuperblocSpec.WellFormed(s) && Enabled(s, Load(vol, got))
    requires DiskRep(t, d0, s.sizes, s.saved, n0) && p0 == s.pos && l0 == s.live && n0.Keys == p0.Keys
    requires vol < |t| && s.saved[vol].None? && NewNodes(got, p0, n0)
    requires Built(p1, n1, l1, p0, n0, l0, got, |got|)
    requires 0 <= Start(t[vol]) < HDA_SECTORS && d1 == Burst(d0, Start(t[vol]), InitBlocks(serial, got), |got| + 1)
    ensures n1 == GrowNext(n0, got, |got|) && d1 == PlatterLoaded(d0, t, vol, s.saved, serial, got)
    ensures var u := LoadedState(s, vol, got);
            s.sizes[vol] >= 2 ==>
              && SuperblocSpec.WellFormed(u) && u.loaded == Some((vol, List(got)))
              && p1 == u.pos && l1 == u.live && n1.Keys == p1.Keys
              && FirstRep(Top(got), List(got), n1) && |d1| == HDA_SECTORS
              && DiskRep(t, d1, u.sizes, u.saved, n1)
  {
    BuiltNext(p1, n1, l1, p0, n0, l0, got);
    if s.sizes[vol] >= 2 {
      InitFacts(t, d0, d1, s, p0, n0, l0, p1, n1, l1, vol, serial, got);
    }
    hide DiskRep, SuperblocSpec.WellFormed, FirstRep, Built, NewNodes, PartInv, LoadedState;
  }

  lemma InitInside<N>(t: Table, vol: nat, d0: seq<Sector<N>>, d1: seq<Sector<N>>, serial: int, got: seq<N>)
    requires PartInv(t) && vol < |t| && Sound(t[vol]) && t[vol].nbBlocs >= 2 && |got| == InitCount(t[vol].nbBlocs)
    requires |d0| == HDA_SECTORS && d1 == Burst(d0, Start(t[vol]), InitBlocks(serial, got), |got| + 1)
    ensures forall i :: 0 <= i < HDA_SECTORS && !(Start(t[vol]) <= i < End(t[vol])) ==> d1[i] == d0[i]
  {
  }

  /** Initialising a volume that another one follows directly leaves that one what it had exactly when the volume
      initialised has two blocks or more. With a single block, node 1 lands on its first sector and is taken for a
      superblock whose list was never assigned. */
  lemma InitSpillExact<N>(t: Table, v: nat, d0: seq<Sector<N>>, serial: int, got: seq<N>, f: Option<First<N>>,
                          next: map<N, Pointer<N>>)
    requires PartInv(t) && v + 1 < |t| && |d0| == HDA_SECTORS && |got| == InitCount(t[v].nbBlocs)
    requires Start(t[v + 1]) == End(t[v])
    ensures 0 <= Start(t[v]) < Start(t[v + 1]) < HDA_SECTORS
    ensures SavedRep(Burst(d0, Start(t[v]), InitBlocks(serial, got), |got| + 1)[Start(t[v + 1])], f, next)
            <==> if t[v].nbBlocs >= 2 then SavedRep(d0[Start(t[v + 1])], f, next) else f == Some(Unset)
  {
    assert Sound(t[v]) && Sound(t[v + 1]);
  }

  lemma InitWellFormed<N>(s: Store<N>, v: nat, got: seq<N>)
    requires SuperblocSpec.WellFormed(s) && Enabled(s, Load(v, got)) && s.saved[v].None?
    ensures SuperblocSpec.WellFormed(LoadedState(s, v, got))
  {
  }

  lemma SaveFacts<N>(t: Table, d0: seq<Sector<N>>, s: Store<N>, next: map<N, Pointer<N>>, current: Superblock<N>)
    requires PartInv(t) && |d0| == HDA_SECTORS && SuperblocSpec.WellFormed(s) && s.loaded.Some?
    requires DiskRep(t, d0, s.sizes, s.saved, next) && FirstRep(current.first, s.loaded.value.1, next)
    ensures var v := s.loaded.value.0;
            && v < |t| && 0 <= Start(t[v]) < HDA_SECTORS
            && SuperblocSpec.WellFormed(SavedState(s))
            && DiskRep(t, d0[Start(t[v]) := SuperImage(current.serial, current.first)], SavedState(s).sizes,
                       SavedState(s).saved, next)
  {
  }

  lemma TakeFacts<N>(s: Store<N>, p: Pointer<N>, next: map<N, Pointer<N>>)
    requires SuperblocSpec.WellFormed(s) && s.loaded.Some? && FirstRep(p, s.loaded.value.1, next)
    ensures p == Null ==> TakeBloc(s) == Done(0, s)
    ensures p == Wild || (p.To? && p.p !in s.live) ==> TakeBloc(s) == Crash
    ensures p.To? && p.p in s.live ==>
              && p.p in s.pos && p.p in next && TakeBloc(s).Done? && TakeBloc(s).code == s.pos[p.p]
              && var u := TakenState(s);
                && SuperblocSpec.WellFormed(u) && u.live == s.live - {p.p} && u.pos == s.pos
                && u.sizes == s.sizes && u.saved == s.saved
                && u.loaded.Some? && u.loaded.value.0 == s.loaded.value.0 && FirstRep(next[p.p], u.loaded.value.1, next)
  {
  }

  lemma GiveFacts<N>(t: Table, platter: seq<Sector<N>>, s: Store<N>, next: map<N, Pointer<N>>)
    requires PartInv(t) && |platter| == HDA_SECTORS && SuperblocSpec.WellFormed(s) && s.loaded.Some?
    requires DiskRep(t, platter, s.sizes, s.saved, next)
    ensures s.loaded.value.0 < |t| && s.sizes[s.loaded.value.0] == t[s.loaded.value.0].nbBlocs
    ensures s.loaded.value.1.List? ==> forall n :: n in s.loaded.value.1.nodes ==> n in s.pos
  {
  }

  lemma WildFacts<N>(p: Pointer<N>, f: First<N>, next: map<N, Pointer<N>>)
    requires p == Wild && FirstRep(p, f, next)
    ensures f == Unset
  {
  }

  // ---- The walk of free_bloc --------------------------------------------------------------------

  predicate Walking<N(==)>(p: Pointer<N>, nodes: seq<N>, next: map<N, Pointer<N>>, pos: map<N, nat>) {
    ListRep(p, nodes, next) && (forall n :: n in nodes ==> n in pos)
  }

  function FindIn<N>(nodes: seq<N>, pos: map<N, nat>, live: set<N>, bloc: nat): Search {
    if forall n :: n in nodes ==> n in pos then Find(nodes, pos, live, bloc) else Dangling
  }

  lemma WalkStart<N>(p: Pointer<N>, f: First<N>, next: map<N, Pointer<N>>, pos: map<N, nat>, live: set<N>, bloc: nat)
    requires p != Wild && FirstRep(p, f, next) && (f.List? ==> forall n :: n in f.nodes ==> n in pos)
    ensures f.List? && Walking(p, f.nodes, next, pos)
  {
  }

  lemma WalkTurn<N>(p: Pointer<N>, nodes: seq<N>, next: map<N, Pointer<N>>, pos: map<N, nat>, live: set<N>, bloc: nat)
    requires p.To? && Walking(p, nodes, next, pos)
    ensures nodes != [] && p.p in next && p.p in pos && next[p.p] != Wild && Walking(next[p.p], nodes[1..], next, pos)
    ensures FindIn(nodes, pos, live, bloc) == if p.p !in live then Dangling else if pos[p.p] == bloc then Present
                                              else FindIn(nodes[1..], pos, live, bloc)
  {
  }

  lemma WalkEnd<N>(nodes: seq<N>, next: map<N, Pointer<N>>, pos: map<N, nat>, live: set<N>, bloc: nat)
    requires Walking(Null, nodes, next, pos)
    ensures FindIn(nodes, pos, live, bloc) == Absent
  {
  }

  lemma PushFacts<N>(t: Table, platter: seq<Sector<N>>, s: Store<N>, next: map<N, Pointer<N>>, p: Pointer<N>,
                     bloc: nat, node: N)
    requires PartInv(t) && |platter| == HDA_SECTORS && SuperblocSpec.WellFormed(s) && s.loaded.Some?
    requires DiskRep(t, platter, s.sizes, s.saved, next) && FirstRep(p, s.loaded.value.1, next) && p != Wild
    requires next.Keys == s.pos.Keys && node !in s.pos && bloc < s.sizes[s.loaded.value.0]
    requires s.loaded.value.1.List? && FindIn(s.loaded.value.1.nodes, s.pos, s.live, bloc) == Absent
    ensures GiveBloc(s, bloc, node).Done? && GiveBloc(s, bloc, node).code == 1
    ensures var u := GivenState(s, bloc, node);
            var next' := next[node := Null][node := p];
            && SuperblocSpec.WellFormed(u) && u.pos == s.pos[node := bloc] && u.live == s.live + {node}
            && u.loaded.Some? && u.loaded.value.0 == s.loaded.value.0
            && FirstRep(To(node), u.loaded.value.1, next')
            && DiskRep(t, platter, u.sizes, u.saved, next')
  {
  }

  class Allocator<N(==)> {
    /** The fields of the nodes by address; `live` is what the allocator of the C library knows. */
    var posBloc: map<N, nat>
    var next: map<N, Pointer<N>>
    var live: set<N>
    var current: Option<Superblock<N>>
    var currentVol: nat

    /** The state that all this and the first blocks of the volumes stand for. */
    ghost var st: Store<N>

    ghost predicate NodesRep(pos: map<N, nat>, alive: set<N>)
      reads this`posBloc, this`live, this`next
    {
      posBloc == pos && live == alive && next.Keys == pos.Keys
    }

    ghost predicate CurrentRep(loaded: Option<(nat, First<N>)>)
      reads this`current, this`next
    {
      match loaded
      case None => current.None?
      case Some((v, f)) => current.Some? && FirstRep(current.value.first, f, next)
    }

    /** current_vol is the number of the volume loaded, or of an entry that still describes it. */
    ghost predicate VolRep(mbr: Mbr, loaded: Option<(nat, First<N>)>)
      reads this`currentVol, mbr, mbr.volumes
      requires mbr.Valid()
    {
      loaded.Some? ==>
        && currentVol < MAX_VOLUMES && loaded.value.0 < |mbr.Volumes()|
        && mbr.volumes[currentVol] == mbr.Volumes()[loaded.value.0]
    }

    /** All is valid, but for current_vol. */
    ghost predicate Loose(mbr: Mbr, drive: Disk<Sector<N>>)
      reads this, mbr, mbr.volumes, drive
    {
      && SuperblocSpec.WellFormed(st) && Ready(mbr, drive)
      && NodesRep(st.pos, st.live) && CurrentRep(st.loaded)
      && DiskRep(mbr.Volumes(), drive.platter, st.sizes, st.saved, next)
    }

    ghost predicate Valid(mbr: Mbr, drive: Disk<Sector<N>>)
      reads this, mbr, mbr.volumes, drive
    {
      Loose(mbr, drive) && VolRep(mbr, st.loaded)
    }

    method CreateList(node: N, bloc: nat)
      requires node !in posBloc
      modifies this`posBloc, this`next, this`live
      ensures posBloc == old(posBloc)[node := bloc] && next == old(next)[node := Null] && live == old(live) + {node}
    {
      live := live + {node};
      posBloc := posBloc[node := bloc];
      next := next[node := Null];
    }

    /** One turn of the loop of init_volume: node `tmp` goes after `list`, which is then written. */
    method LinkAndWrite(mbr: Mbr, drive: Disk<Sector<N>>, vol: nat, list: N, tmp: N, i: nat, ghost got: seq<N>,
                        ghost serial: int, ghost p0: map<N, nat>, ghost n0: map<N, Pointer<N>>, ghost l0: set<N>,
                        ghost d0: seq<Sector<N>>)
      requires Ready(mbr, drive) && vol < |mbr.Volumes()| && |d0| == HDA_SECTORS && NewNodes(got, p0, n0)
      requires 2 <= i <= |got| && list == got[i - 2] && tmp == got[i - 1]
      requires 0 <= Start(mbr.Volumes()[vol]) < HDA_SECTORS - |got|
      requires Built(posBloc, next, live, p0, n0, l0, got, i - 1)
      requires drive.platter == Burst(d0, Start(mbr.Volumes()[vol]), InitBlocks(serial, got), i - 1)
      modifies this`posBloc, this`next, this`live
      modifies drive`cyl, drive`sect, drive`masterBuffer, drive`platter
      ensures Ready(mbr, drive)
      ensures Built(posBloc, next, live, p0, n0, l0, got, i)
      ensures drive.platter == Burst(d0, Start(mbr.Volumes()[vol]), InitBlocks(serial, got), i)
    {
      ghost var at := Start(mbr.Volumes()[vol]);
      ghost var blocks := InitBlocks(serial, got);
      assert blocks[i - 1] == NodeImage(i - 1, To(tmp));
      assert mbr.volumes[vol] == mbr.Volumes()[vol] && Sound(mbr.volumes[vol]);
      hide Ready, Mbr.Volumes, Start, Burst, InitBlocks, NewNodes, Built;
      BuiltStep(posBloc, next, live, p0, n0, l0, got, i - 1);
      CreateList(tmp, i);
      next := next[list := To(tmp)];
      WriteBloc(mbr, drive, vol, posBloc[list], NodeImage(posBloc[list], next[list]));
      BurstOne(d0, at, blocks, i - 1);
    }

    /** The loop of init_volume and the write of the last node, from the first node on. */
    method WriteNodes(mbr: Mbr, drive: Disk<Sector<N>>, vol: nat, size: nat, got: seq<N>, ghost serial: int,
                      ghost p0: map<N, nat>, ghost n0: map<N, Pointer<N>>, ghost l0: set<N>, ghost d0: seq<Sector<N>>)
      requires Ready(mbr, drive) && vol < |mbr.Volumes()| && |d0| == HDA_SECTORS
      requires |got| == InitCount(size) && NewNodes(got, p0, n0)
      requires 0 <= Start(mbr.Volumes()[vol]) < HDA_SECTORS - |got|
      requires Built(posBloc, next, live, p0, n0, l0, got, 1)
      requires drive.platter == Burst(d0, Start(mbr.Volumes()[vol]), InitBlocks(serial, got), 1)
      modifies this`posBloc, this`next, this`live
      modifies drive`cyl, drive`sect, drive`masterBuffer, drive`platter
      ensures Ready(mbr, drive)
      ensures Built(posBloc, next, live, p0, n0, l0, got, |got|)
      ensures drive.platter == Burst(d0, Start(mbr.Volumes()[vol]), InitBlocks(serial, got), |got| + 1)
    {
      ghost var at := Start(mbr.Volumes()[vol]);
      hide Burst, InitBlocks, Ready, NewNodes, Built, Mbr.Volumes, Start;
      var list := got[0];
      var i := 2;
      while i < size
        invariant 2 <= i <= |got| + 1 && (i < size ==> i <= |got|) && (i >= size ==> i == |got| + 1)
        invariant list == got[i - 2]
        invariant Built(posBloc, next, live, p0, n0, l0, got, i - 1)
        invariant Ready(mbr, drive) && drive.platter == Burst(d0, at, InitBlocks(serial, got), i - 1)
      {
        var tmp := got[i - 1];
        LinkAndWrite(mbr, drive, vol, list, tmp, i, got, serial, p0, n0, l0, d0);
        list := tmp;
        i := i + 1;
      }
      WriteLast(mbr, drive, vol, list, got, serial, p0, n0, l0, d0);
    }

    /** The write of init_volume after its loop. */
    method WriteLast(mbr: Mbr, drive: Disk<Sector<N>>, vol: nat, list: N, ghost got: seq<N>, ghost serial: int,
                     ghost p0: map<N, nat>, ghost n0: map<N, Pointer<N>>, ghost l0: set<N>, ghost d0: seq<Sector<N>>)
      requires Ready(mbr, drive) && vol < |mbr.Volumes()| && |d0| == HDA_SECTORS
      requires got != [] && NewNodes(got, p0, n0) && list == got[|got| - 1]
      requires 0 <= Start(mbr.Volumes()[vol]) < HDA_SECTORS - |got|
      requires Built(posBloc, next, live, p0, n0, l0, got, |got|)
      requires drive.platter == Burst(d0, Start(mbr.Volumes()[vol]), InitBlocks(serial, got), |got|)
      modifies drive`cyl, drive`sect, drive`masterBuffer, drive`platter
      ensures Ready(mbr, drive)
      ensures drive.platter == Burst(d0, Start(mbr.Volumes()[vol]), InitBlocks(serial, got), |got| + 1)
    {
      ghost var at := Start(mbr.Volumes()[vol]);
      ghost var blocks := InitBlocks(serial, got);
      assert blocks[|got|] == NodeImage(|got|, Below(got, |got| - 1));
      assert mbr.volumes[vol] == mbr.Volumes()[vol] && Sound(mbr.volumes[vol]);
      hide Burst, InitBlocks, Ready, NewNodes, Built, Mbr.Volumes, Start, Below;
      BuiltLast(posBloc, next, live, p0, n0, l0, got);
      WriteBloc(mbr, drive, vol, posBloc[list], NodeImage(posBloc[list], next[list]));
      BurstOne(d0, at, blocks, |got|);
    }

    /** Even a volume of less than two blocks gets its second block written. */
    method InitVolume(mbr: Mbr, drive: Disk<Sector<N>>, vol: nat, serial: int, got: seq<N>)
      requires Ready(mbr, drive) && vol < |mbr.Volumes()|
      requires |got| == InitCount(mbr.Volumes()[vol].nbBlocs) && NewNodes(got, posBloc, next)
      requires Start(mbr.Volumes()[vol]) + |got| < HDA_SECTORS
      modifies this`posBloc, this`next, this`live, this`current
      modifies drive`cyl, drive`sect, drive`masterBuffer, drive`platter
      ensures Ready(mbr, drive)
      ensures drive.platter == Burst(old(drive.platter), Start(mbr.Volumes()[vol]), InitBlocks(serial, got), |got| + 1)
      ensures Built(posBloc, next, live, old(posBloc), old(next), old(live), got, |got|)
      ensures current == Some(Superblock(serial, Top(got)))
    {
      var size := mbr.volumes[vol].nbBlocs;
      assert Sound(mbr.Volumes()[vol]) && |drive.platter| == HDA_SECTORS && mbr.Volumes()[vol].nbBlocs == size;
      hide Burst, InitBlocks, Ready, NewNodes, Built, PartInv;
      ghost var p0, n0, l0, d0 := posBloc, next, live, drive.platter;
      current := Some(Superblock(serial, Wild));
      WriteBloc(mbr, drive, vol, 0, SuperImage(current.value.serial, current.value.first));
      BurstFirst(d0, Start(mbr.Volumes()[vol]), InitBlocks(serial, got));
      BuiltFirst(posBloc, next, live, got);
      CreateList(got[0], 1);
      WriteNodes(mbr, drive, vol, size, got, serial, p0, n0, l0, d0);
      current := Some(current.value.(first := To(got[0])));
    }

    /** The assignment of load_vol to current_vol, once the superblock in memory is that of `vol`. */
    method SetVolume(mbr: Mbr, drive: Disk<Sector<N>>, vol: nat, ghost u: Store<N>, ghost f: First<N>, ghost fits: bool)
      requires Ready(mbr, drive) && vol < |mbr.Volumes()|
      requires fits ==>
                 && SuperblocSpec.WellFormed(u) && NodesRep(u.pos, u.live)
                 && u.loaded == Some((vol, f)) && current.Some? && FirstRep(current.value.first, f, next)
                 && DiskRep(mbr.Volumes(), drive.platter, u.sizes, u.saved, next)
      modifies this`currentVol, this`st
      ensures currentVol == vol && (fits ==> Valid(mbr, drive) && st == u)
    {
      assert mbr.volumes[vol] == mbr.Volumes()[vol] && vol < MAX_VOLUMES;
      hide DiskRep, SuperblocSpec.WellFormed, Ready, FirstRep, NodesRep;
      currentVol := vol;
      st := u;
    }

    /** The initialisation made by load_super. */
    method InitFresh(mbr: Mbr, drive: Disk<Sector<N>>, vol: nat, serial: int, got: seq<N>)
      requires Valid(mbr, drive) && Enabled(st, Load(vol, got)) && st.saved[vol].None?
      requires vol < |mbr.Volumes()| && Start(mbr.Volumes()[vol]) + |got| < HDA_SECTORS
      modifies this`posBloc, this`next, this`live, this`current
      modifies drive`cyl, drive`sect, drive`masterBuffer, drive`platter
      ensures Ready(mbr, drive) && vol < |st.sizes|
      ensures drive.platter == PlatterLoaded(old(drive.platter), mbr.Volumes(), vol, st.saved, serial, got)
      ensures next == GrowNext(old(next), got, |got|) && current == Some(Superblock(serial, Top(got)))
      ensures var u := LoadedState(st, vol, got);
              st.sizes[vol] >= 2 ==>
                && SuperblocSpec.WellFormed(u) && NodesRep(u.pos, u.live) && u.loaded == Some((vol, List(got)))
                && FirstRep(Top(got), List(got), next)
                && DiskRep(mbr.Volumes(), drive.platter, u.sizes, u.saved, next)
    {
      ghost var t := mbr.Volumes();
      LoadFacts(t, drive.platter, st, next, vol, got, posBloc);
      ghost var p0, n0, l0, d0 := posBloc, next, live, drive.platter;
      hide DiskRep, SuperblocSpec.WellFormed, Ready, Enabled, NewNodes, FirstRep, Burst, LoadedState, Built;
      hide Sound, InitBlocks, PlatterLoaded, GrowNext, InitCount;
      InitVolume(mbr, drive, vol, serial, got);
      FreshFacts(t, d0, drive.platter, st, p0, n0, l0, posBloc, next, live, vol, serial, got);
    }

    /** load_super when the first block is no superblock. */
    method LoadFresh(mbr: Mbr, drive: Disk<Sector<N>>, vol: nat, serial: int, got: seq<N>)
      requires Valid(mbr, drive) && Enabled(st, Load(vol, got)) && st.saved[vol].None?
      requires vol < |mbr.Volumes()| && Start(mbr.Volumes()[vol]) + |got| < HDA_SECTORS
      modifies this, drive`cyl, drive`sect, drive`masterBuffer, drive`platter
      ensures currentVol == vol
      ensures old(st).sizes[vol] >= 2 ==> Valid(mbr, drive) && st == LoadedState(old(st), vol, got)
      ensures drive.platter == PlatterLoaded(old(drive.platter), mbr.Volumes(), vol, old(st.saved), serial, got)
      ensures next == GrowNext(old(next), got, |got|) && current == Some(Superblock(serial, Top(got)))
    {
      ghost var s := st;
      InitFresh(mbr, drive, vol, serial, got);
      hide DiskRep, Ready, FirstRep, LoadedState, PlatterLoaded, GrowNext, Valid, NodesRep, Start, Top;
      SetVolume(mbr, drive, vol, LoadedState(s, vol, got), List(got), s.sizes[vol] >= 2);
    }

    /** load_super when it is one. */
    method LoadFound(mbr: Mbr, drive: Disk<Sector<N>>, vol: nat, buffer: Sector<N>, ghost got: seq<N>)
      requires Valid(mbr, drive) && Enabled(st, Load(vol, got)) && st.saved[vol].Some? && HasMagic(buffer)
      requires FirstRep(FirstField(buffer), st.saved[vol].value, next)
      modifies this`current, this`currentVol, this`st
      ensures Valid(mbr, drive) && st == LoadedState(old(st), vol, got) && currentVol == vol
      ensures current == Some(Superblock(SerialField(buffer), FirstField(buffer)))
    {
      LoadFacts(mbr.Volumes(), drive.platter, st, next, vol, got, posBloc);
      hide DiskRep, SuperblocSpec.WellFormed, Ready, Enabled, NewNodes, FirstRep, LoadedState, PartInv, Sound;
      current := Some(Superblock(SerialField(buffer), FirstField(buffer)));
      SetVolume(mbr, drive, vol, LoadedState(st, vol, got), st.saved[vol].value, true);
    }

    /** load_super, with the assignment of its result to current_vol by the command load_vol. The
        initialisation of a volume of one block writes one sector more, which the disk must have; it may be
        the superblock of the next volume, so that the lists are no longer what they were. */
    method LoadSuper(mbr: Mbr, drive: Disk<Sector<N>>, vol: nat, serial: int, got: seq<N>) returns (r: Result)
      requires Valid(mbr, drive) && Enabled(st, Load(vol, got))
      requires st.saved[vol].None? && vol < |mbr.Volumes()| ==> Start(mbr.Volumes()[vol]) + |got| < HDA_SECTORS
      modifies this, drive`cyl, drive`sect, drive`masterBuffer, drive`platter
      ensures r == Returned(vol) && currentVol == vol
      ensures old(st).saved[vol].Some? || old(st).sizes[vol] >= 2 ==>
                Valid(mbr, drive) && st == LoadedState(old(st), vol, got)
      ensures drive.platter == PlatterLoaded(old(drive.platter), mbr.Volumes(), vol, old(st.saved), serial, got)
      ensures old(st).saved[vol].None? ==>
                next == GrowNext(old(next), got, |got|) && current == Some(Superblock(serial, Top(got)))
      ensures old(st).saved[vol].Some? ==>
                && next == old(next) && 0 <= Start(mbr.Volumes()[vol]) < HDA_SECTORS
                && var x := drive.platter[Start(mbr.Volumes()[vol])];
                  HasMagic(x) && current == Some(Superblock(SerialField(x), FirstField(x)))
    {
      LoadFacts(mbr.Volumes(), drive.platter, st, next, vol, got, posBloc);
      assert st.saved[vol].Some? ==>
          drive.platter == PlatterLoaded(drive.platter, mbr.Volumes(), vol, st.saved, serial, got);
      hide DiskRep, SuperblocSpec.WellFormed, Ready, Enabled, NewNodes, FirstRep, LoadedState, PartInv, Sound;
      hide NodesRep, CurrentRep, PlatterLoaded;
      var buffer := ReadBloc(mbr, drive, vol, 0);
      assert Valid(mbr, drive);
      hide Valid;
      if HasMagic(buffer) {
        LoadFound(mbr, drive, vol, buffer, got);
      } else {
        LoadFresh(mbr, drive, vol, serial, got);
      }
      r := Returned(vol);
    }

    /** Whatever entry current_vol is the number of, the superblock goes to its first sector. */
    method SaveSuper(mbr: Mbr, drive: Disk<Sector<N>>) returns (r: Result)
      requires Loose(mbr, drive)
      requires current.Some? ==>
                 && currentVol < MAX_VOLUMES && mbr.volumes[currentVol].debutSect >= 0
                 && 0 <= Start(mbr.volumes[currentVol]) < HDA_SECTORS
      modifies this, drive`cyl, drive`sect, drive`masterBuffer, drive`platter
      ensures r == match SuperblocSpec.SaveSuper(old(st)) case Crash => Crashed case Done(code, _) => Returned(code)
      ensures r != Crashed ==>
                && next == old(next) && current == None && old(current).Some? && currentVol == old(currentVol)
                && drive.platter
                   == old(drive.platter)[Start(mbr.volumes[currentVol])
                                         := SuperImage(old(current).value.serial, old(current).value.first)]
      ensures r != Crashed && old(VolRep(mbr, st.loaded)) ==>
                Valid(mbr, drive) && Done(0, st) == SuperblocSpec.SaveSuper(old(st))
    {
      if current == None {
        return Crashed;
      }
      ghost var t, s, d0 := mbr.Volumes(), st, drive.platter;
      SaveFacts(t, d0, s, next, current.value);
      hide DiskRep, SuperblocSpec.WellFormed, Ready, FirstRep, PartInv, Sound;
      WriteBloc(mbr, drive, currentVol, 0, SuperImage(current.value.serial, current.value.first));
      current := None;
      st := SavedState(s);
      r := Returned(0);
    }

    method NewBloc(mbr: Mbr, drive: Disk<Sector<N>>) returns (r: Result)
      requires Valid(mbr, drive)
      modifies this
      ensures r == match SuperblocSpec.TakeBloc(old(st)) case Crash => Crashed case Done(code, _) => Returned(code)
      ensures r.Returned? ==> Valid(mbr, drive) && Done(r.code, st) == SuperblocSpec.TakeBloc(old(st))
      ensures next == old(next) && currentVol == old(currentVol)
      ensures r.Returned? && (old(current).None? || old(current).value.first.Null?) ==> current == old(current)
      ensures r.Returned? && old(current).Some? && !old(current).value.first.Null? ==>
                && old(current).value.first.To? && old(current).value.first.p in next
                && current == Some(old(current).value.(first := next[old(current).value.first.p]))
    {
      if current == None {
        return Returned(NOT_LOADED_NEW);
      }
      ghost var s := st;
      ghost var f := s.loaded.value.1;
      TakeFacts(s, current.value.first, next);
      hide DiskRep, SuperblocSpec.WellFormed, Ready, FirstRep, ListRep, VolRep, TakenState;
      if current.value.first == Null {
        return Returned(0);
      }
      if current.value.first == Wild || current.value.first.p !in live {
        return Crashed;
      }
      var new_ := current.value.first.p;
      var res := posBloc[new_];
      hide NodesRep, CurrentRep;
      Pop(new_, TakenState(s));
      return Returned(res);
    }

    /** The first node is unlinked and freed. */
    method Pop(node: N, ghost u: Store<N>)
      requires current.Some? && node in next
      modifies this`current, this`live, this`st
      ensures current == Some(old(current).value.(first := next[node])) && live == old(live) - {node} && st == u
    {
      current := Some(current.value.(first := next[node]));
      live := live - {node};
      st := u;
    }

    /** The loop of free_bloc. */
    method FindNode(bloc: nat, ghost nodes: seq<N>) returns (found: Search)
      requires current.Some? && current.value.first != Wild && Walking(current.value.first, nodes, next, posBloc)
      ensures found == FindIn(nodes, posBloc, live, bloc)
    {
      hide Walking, FindIn;
      var newbloc := current.value.first;
      ghost var rest := nodes;
      while newbloc != Null
        invariant newbloc != Wild && Walking(newbloc, rest, next, posBloc)
        invariant FindIn(nodes, posBloc, live, bloc) == FindIn(rest, posBloc, live, bloc)
        decreases |rest|
      {
        WalkTurn(newbloc, rest, next, posBloc, live, bloc);
        if newbloc.p !in live {
          return Dangling;
        }
        if posBloc[newbloc.p] == bloc {
          return Present;
        }
        newbloc := next[newbloc.p];
        rest := rest[1..];
      }
      WalkEnd(rest, next, posBloc, live, bloc);
      return Absent;
    }

    /** free_bloc on a block that was not found: a node for it goes in front of the list. */
    method PushNode(mbr: Mbr, drive: Disk<Sector<N>>, bloc: nat, node: N)
      requires Valid(mbr, drive) && node !in posBloc && current.Some? && current.value.first != Wild
      requires st.loaded.Some? && bloc < st.sizes[st.loaded.value.0] && st.loaded.value.1.List?
      requires FindIn(st.loaded.value.1.nodes, st.pos, st.live, bloc) == Absent
      modifies this
      ensures Valid(mbr, drive) && Done(1, st) == SuperblocSpec.GiveBloc(old(st), bloc, node)
      ensures next == old(next)[node := Null][node := old(current).value.first] && currentVol == old(currentVol)
      ensures current == Some(old(current).value.(first := To(node)))
    {
      ghost var s := st;
      assert PartInv(mbr.Volumes()) && |drive.platter| == HDA_SECTORS && st.loaded.value.0 < |st.sizes|;
      hide DiskRep, SuperblocSpec.WellFormed, Ready, FirstRep, FindIn, PartInv, Find;
      PushFacts(mbr.Volumes(), drive.platter, s, next, current.value.first, bloc, node);
      assert GivenState(s, bloc, node) == GiveBloc(s, bloc, node).s;
      hide GivenState, SuperblocSpec.GiveBloc, NodesRep, CurrentRep, VolRep;
      PutFirst(node, bloc, GivenState(s, bloc, node));
    }

    /** The node is made, linked and put in front. */
    method PutFirst(node: N, bloc: nat, ghost u: Store<N>)
      requires node !in posBloc && current.Some?
      modifies this`posBloc, this`next, this`live, this`current, this`st
      ensures posBloc == old(posBloc)[node := bloc] && live == old(live) + {node}
      ensures next == old(next)[node := Null][node := old(current).value.first]
      ensures current == Some(old(current).value.(first := To(node))) && st == u
    {
      CreateList(node, bloc);
      next := next[node := current.value.first];
      current := Some(current.value.(first := To(node)));
      st := u;
    }

    method FreeBloc(mbr: Mbr, drive: Disk<Sector<N>>, bloc: nat, node: N) returns (r: Result)
      requires Valid(mbr, drive) && node !in posBloc
      modifies this
      ensures r == match SuperblocSpec.GiveBloc(old(st), bloc, node)
                   case Crash => Crashed
                   case Done(code, _) => Returned(code)
      ensures r.Returned? ==> Valid(mbr, drive) && Done(r.code, st) == SuperblocSpec.GiveBloc(old(st), bloc, node)
      ensures currentVol == old(currentVol)
      ensures r.Returned? && r.code != 1 ==> next == old(next) && current == old(current)
      ensures r == Returned(1) ==>
                && old(current).Some? && next == old(next)[node := Null][node := old(current).value.first]
                && current == Some(old(current).value.(first := To(node)))
    {
      if current == None {
        return Returned(NOT_LOADED_FREE);
      }
      ghost var s := st;
      ghost var f := s.loaded.value.1;
      GiveFacts(mbr.Volumes(), drive.platter, s, next);
      var size := mbr.volumes[currentVol].nbBlocs;
      assert size == s.sizes[s.loaded.value.0];
      hide DiskRep, SuperblocSpec.WellFormed, Ready, FirstRep, ListRep, Find, FindIn, GivenState;
      if bloc >= size {
        return Returned(OUT_OF_VOLUME);
      }
      var newbloc := current.value.first;
      if newbloc == Wild {
        WildFacts(newbloc, f, next);
        return Crashed;
      }
      WalkStart(newbloc, f, next, s.pos, live, bloc);
      var found := FindNode(bloc, f.nodes);
      match found {
        case Dangling => return Crashed;
        case Present => return Returned(0);
        case Absent =>
          PushNode(mbr, drive, bloc, node);
          return Returned(1);
      }
    }
  }
}

/** Whole sessions of src/vm/vm.c: partitions edited and saved, blocks written, volumes formatted, loaded,
    allocated from, freed to and saved, in any order. Which commands keep everything together, exactly; and as
    long as they do, every volume behaves as if it were alone. */
module Session {
  import opened Collections
  import opened Drive
  import opened Partition
  import opened Volume
  import opened SuperblocSpec
  import opened SuperblocTheorems
  import opened Superbloc
  import DiskTheorems

  /** The disk and the table, the other entries of the array the table is in, the allocator, and its memory:
      the links of the nodes, the superblock and current_vol. */
  datatype Machine<!N> = Machine(disk: DiskTheorems.World<Sector<N>>, rest: seq<Vol>, store: Store<N>,
                                 next: map<N, Pointer<N>>, current: Option<Superblock<N>>, currentVol: nat)

  /** `serial` is the random number of a new superblock, `got` and `node` are what malloc returns. */
  datatype Op<N> =
    | Write(v: nat, b: nat, x: Sector<N>)
    | Format(v: nat, value: bv32)
    | NewPart(n: int)
    | DelPart(v: nat)
    | SaveTable
    | LoadVol(v: nat, serial: int, got: seq<N>)
    | SaveVol
    | NewVol
    | DelVol(b: nat, node: N)

  // ---- The invariant ----------------------------------------------------------------------------

  /** What `mbr->volumes[i]` is. */
  function Entries<N>(m: Machine<N>): seq<Vol> {
    m.disk.table + m.rest
  }

  predicate CurrentOk<N(==)>(current: Option<Superblock<N>>, loaded: Option<(nat, First<N>)>,
                             next: map<N, Pointer<N>>) {
    match loaded
    case None => current.None?
    case Some((_, f)) => current.Some? && FirstRep(current.value.first, f, next)
  }

  /** The superblock in memory belongs to a volume, and current_vol is the number of an entry that says where
      that volume is: save_super will put it back where it came from. */
  predicate Home(table: Table, rest: seq<Vol>, currentVol: nat, w: nat) {
    w < |table| && currentVol < |table| + |rest| && (table + rest)[currentVol] == table[w]
  }

  /** The list the volume in memory has on the disk, if it has any, is one left behind. */
  ghost predicate Follows<N>(s: Store<N>)
    requires SuperblocSpec.WellFormed(s)
  {
    s.loaded.Some? && s.saved[s.loaded.value.0].Some? ==> Tracks(s)
  }

  ghost predicate MachineInv<N>(m: Machine<N>) {
    && DiskTheorems.Inv(m.disk) && |m.disk.table| + |m.rest| == MAX_VOLUMES
    && SuperblocSpec.WellFormed(m.store) && SuperblocTheorems.Inv(m.store) && Follows(m.store)
    && DiskRep(m.disk.table, m.disk.platter, m.store.sizes, m.store.saved, m.next)
    && m.next.Keys == m.store.pos.Keys
    && CurrentOk(m.current, m.store.loaded, m.next)
    && (m.store.loaded.Some? ==> Home(m.disk.table, m.rest, m.currentVol, m.store.loaded.value.0))
  }

  lemma InMemory<N>(m: Machine<N>)
    requires MachineInv(m) && m.store.loaded.Some?
    ensures m.current.Some? && m.store.loaded.value.1.List?
    ensures ListRep(m.current.value.first, m.store.loaded.value.1.nodes, m.next)
    ensures m.store.loaded.value.0 < |m.disk.table| && m.currentVol < |Entries(m)|
    ensures Entries(m)[m.currentVol] == m.disk.table[m.store.loaded.value.0]
    ensures 0 <= Start(Entries(m)[m.currentVol]) < |m.disk.platter|
  {
    assert GoodVolume(m.store, m.store.loaded.value.0);
    assert Sound(m.disk.table[m.store.loaded.value.0]);
  }

  lemma FirstBlock<N>(m: Machine<N>, v: nat)
    requires MachineInv(m) && v < |m.disk.table|
    ensures Sound(m.disk.table[v]) && InRange(m.disk.table, v, 0) && v < |m.store.saved|
    ensures 1 <= Start(m.disk.table[v]) < |m.disk.platter| && Place(m.disk.table, v, 0) == Start(m.disk.table[v])
    ensures SavedRep(m.disk.platter[Start(m.disk.table[v])], m.store.saved[v], m.next)
    ensures m.store.sizes[v] == m.disk.table[v].nbBlocs
  {
  }

  // ---- What the commands do ---------------------------------------------------------------------

  /** The command can be given, and runs to its end: volumes are named that exist, sectors written that the
      disk has, malloc returns new addresses, and save_super finds a superblock. */
  ghost predicate Possible<N>(m: Machine<N>, op: Op<N>)
    requires MachineInv(m)
  {
    match op
    case Write(v, b, _) => v < |m.disk.table| && Start(m.disk.table[v]) + b < HDA_SECTORS
    case Format(v, _) => v < |m.disk.table|
    case LoadVol(v, _, got) =>
      && v < |m.disk.table| && Enabled(m.store, Load(v, got))
      && (m.store.saved[v].None? ==> Start(m.disk.table[v]) + |got| < HDA_SECTORS)
    case SaveVol => m.store.loaded.Some?
    case DelVol(_, node) => node !in m.store.pos
    case _ => true
  }

  /** The position of the volume that `del` removes. */
  function Removed(t: Table, v: nat): nat
    requires t != []
  {
    if v < |t| then v else |t| - 1
  }

  /** The number that volume `w` has once volume `d` of `n` is removed; the volume removed has none. */
  function Renumbered(d: nat, n: nat, w: nat): nat
    requires n > 0
  {
    if w < d then w else if w > d then w - 1 else n - 1
  }

  /** A volume whose superblock is lost on the disk starts anew, unless it is in memory. */
  function Formatted<N>(s: Store<N>, v: nat): Store<N>
    requires v < |s.saved| && v < |s.held|
  {
    if IsLoaded(s, v) then s.(saved := s.saved[v := None])
    else s.(saved := s.saved[v := None], held := s.held[v := {}])
  }

  /** A volume formatted while it was in memory starts anew when its superblock is dropped from there. */
  function Dropped<N>(s: Store<N>): Store<N>
    requires s.loaded.Some? ==> s.loaded.value.0 < |s.saved| == |s.held|
  {
    if s.loaded.Some? && s.saved[s.loaded.value.0].None? then s.(held := s.held[s.loaded.value.0 := {}]) else s
  }

  function Added<N>(s: Store<N>, n: int): Store<N> {
    s.(sizes := s.sizes + [if n < 0 then 0 else n], saved := s.saved + [None], held := s.held + [{}])
  }

  function CutOut<N>(s: Store<N>, d: nat): Store<N>
    requires d < |s.sizes| == |s.saved| == |s.held|
  {
    s.(sizes := Without(s.sizes, d), saved := Without(s.saved, d), held := Without(s.held, d),
       loaded := match s.loaded
                 case None => None
                 case Some((w, f)) => Some((Renumbered(d, |s.sizes|, w), f)))
  }

  function Ended<N>(o: Outcome<N>, s: Store<N>): Store<N> {
    match o
    case Done(_, t) => t
    case Crash => s
  }

  function StoreAfter<N>(m: Machine<N>, op: Op<N>): Store<N>
    requires MachineInv(m) && Possible(m, op)
  {
    var s := m.store;
    match op
    case Write(_, _, _) => s
    case SaveTable => s
    case Format(v, _) => Formatted(s, v)
    case NewPart(n) => if |m.disk.table| >= MAX_VOLUMES then s else Added(s, n)
    case DelPart(v) => if m.disk.table == [] then s else CutOut(s, Removed(m.disk.table, v))
    case LoadVol(v, _, got) => Ended(LoadSuper(Dropped(s), v, got), s)
    case SaveVol => Ended(SuperblocSpec.SaveSuper(s), s)
    case NewVol => Ended(TakeBloc(s), s)
    case DelVol(b, node) => Ended(GiveBloc(s, b, node), s)
  }

  /** The sectors after save_super, which trusts current_vol. */
  function PutBack<N>(m: Machine<N>): seq<Sector<N>>
    requires m.current.Some? && m.currentVol < |Entries(m)|
    requires 0 <= Start(Entries(m)[m.currentVol]) < |m.disk.platter|
  {
    m.disk.platter[Start(Entries(m)[m.currentVol]) := SuperImage(m.current.value.serial, m.current.value.first)]
  }

  /** What the command makes of the sectors and of the table. */
  ghost function DiskAfter<N>(m: Machine<N>, op: Op<N>): DiskTheorems.World<Sector<N>>
    requires MachineInv(m) && Possible(m, op)
  {
    var d := m.disk;
    match op
    case Write(v, b, x) => FirstBlock(m, v); d.(platter := d.platter[Start(d.table[v]) + b := x])
    case Format(v, value) =>
      FirstBlock(m, v);
      d.(platter := Fill(d.platter, Start(d.table[v]), d.table[v].nbBlocs, Filled(value)))
    case NewPart(n) => d.(table := NewTable(d.table, n))
    case DelPart(v) => d.(table := DelTable(d.table, v))
    case SaveTable => d.(platter := d.platter[0 := MbrImage(|d.table|, Entries(m))])
    case LoadVol(v, serial, got) =>
      d.(platter := PlatterLoaded(d.platter, d.table, v, m.store.saved, serial, got))
    case SaveVol => InMemory(m); d.(platter := PutBack(m))
    case _ => d
  }

  function RestAfter<N>(m: Machine<N>, op: Op<N>): seq<Vol>
    requires |m.disk.table| + |m.rest| == MAX_VOLUMES
  {
    match op
    case NewPart(_) => NewRest(m.disk.table, m.rest)
    case DelPart(_) => DelRest(m.disk.table, m.rest)
    case _ => m.rest
  }

  /** A block was taken. */
  predicate Takes<N>(m: Machine<N>, op: Op<N>) {
    op.NewVol? && m.store.loaded.Some? && m.store.loaded.value.1.List? && m.store.loaded.value.1.nodes != []
  }

  /** A block was given back. */
  predicate Gives<N(==)>(m: Machine<N>, op: Op<N>)
    requires SuperblocSpec.WellFormed(m.store) && (op.DelVol? ==> op.node !in m.store.pos)
  {
    op.DelVol? && m.store.loaded.Some? && GiveBloc(m.store, op.b, op.node).Done?
    && GiveBloc(m.store, op.b, op.node).code == 1
  }

  function NextAfter<N>(m: Machine<N>, op: Op<N>): map<N, Pointer<N>>
    requires MachineInv(m) && Possible(m, op)
  {
    if op.LoadVol? && m.store.saved[op.v].None? then GrowNext(m.next, op.got, |op.got|)
    else if Gives(m, op) then InMemory(m); m.next[op.node := Null][op.node := m.current.value.first]
    else m.next
  }

  function CurrentAfter<N>(m: Machine<N>, op: Op<N>): Option<Superblock<N>>
    requires MachineInv(m) && Possible(m, op)
  {
    if op.LoadVol? && m.store.saved[op.v].None? then Some(Superblock(op.serial, Top(op.got)))
    else if op.LoadVol? then
      FirstBlock(m, op.v);
      var x := m.disk.platter[Start(m.disk.table[op.v])];
      Some(Superblock(SerialField(x), FirstField(x)))
    else if op.SaveVol? then None
    else if Takes(m, op) then
      InMemory(m);
      Some(m.current.value.(first := m.next[m.current.value.first.p]))
    else if Gives(m, op) then
      InMemory(m);
      Some(m.current.value.(first := To(op.node)))
    else m.current
  }

  ghost function Step<N>(m: Machine<N>, op: Op<N>): Machine<N>
    requires MachineInv(m) && Possible(m, op)
  {
    Machine(DiskAfter(m, op), RestAfter(m, op), StoreAfter(m, op), NextAfter(m, op), CurrentAfter(m, op),
            if op.LoadVol? then op.v else m.currentVol)
  }

  // ---- Which commands keep the machine together -------------------------------------------------

  /** The first sector a new volume would get does not begin with the magic number. */
  predicate FreshStart<N>(t: Table, platter: seq<Sector<N>>) {
    0 <= NextFree(t) < |platter| && !HasMagic(platter[NextFree(t)])
  }

  /** No superblock is overwritten, but by an equivalent one, and no other first sector gets the magic number. A
      new volume fits, is given no first sector that has it and not the entry the superblock in memory is to go
      back by. The volume in memory is not deleted, nor one before it, unless its entry stays where it is. A
      volume is loaded when none is, or when the one in memory is on the disk as it is, or has been formatted;
      and it has two blocks or more if it has no superblock. Block 0 is not given back. */
  ghost predicate Allowed<N>(m: Machine<N>, op: Op<N>)
    requires MachineInv(m) && Possible(m, op)
  {
    var t, s := m.disk.table, m.store;
    match op
    case Write(v, b, x) => Spares(t, s.saved, m.next, Start(t[v]) + b, x)
    case Format(_, value) => value != FILL_MAGIC
    case NewPart(n) =>
      |t| < MAX_VOLUMES ==>
        Fits(t, Partition.New(n)) && FreshStart(t, m.disk.platter) && (s.loaded.Some? ==> m.currentVol != |t|)
    case DelPart(v) => s.loaded.Some? && t != [] ==> StaysHome(t, Removed(t, v), m.currentVol, s.loaded.value.0)
    case LoadVol(v, _, _) => MayDrop(s) && (s.saved[v].None? ==> s.sizes[v] >= 2)
    case DelVol(b, _) => s.loaded.Some? && b < s.sizes[s.loaded.value.0] ==> b != 0
    case _ => true
  }

  predicate Spares<N(==)>(t: Table, saved: seq<Option<First<N>>>, next: map<N, Pointer<N>>, p: int, x: Sector<N>)
    requires |t| == |saved|
  {
    forall w :: 0 <= w < |t| && Start(t[w]) == p ==> SavedRep(x, saved[w], next)
  }

  /** Volume `w` is in memory and volume `d` is removed. */
  predicate StaysHome(t: Table, d: nat, currentVol: nat, w: nat) {
    w != d && (w < d || currentVol >= |t| - 1)
  }

  predicate MayDrop<N(==)>(s: Store<N>)
    requires SuperblocSpec.WellFormed(s)
  {
    s.loaded.None? || Synced(s) || s.saved[s.loaded.value.0].None?
  }

  // Block writes.

  lemma WriteExact<N>(m: Machine<N>, v: nat, b: nat, x: Sector<N>)
    requires MachineInv(m) && Possible(m, Write(v, b, x))
    ensures MachineInv(Step(m, Write(v, b, x))) <==> Allowed(m, Write(v, b, x))
  {
    FirstBlock(m, v);
    SectorWriteExact(m.disk.table, m.disk.platter, m.store.sizes, m.store.saved, m.next,
                     Start(m.disk.table[v]) + b, x);
    hide SuperblocTheorems.Inv, SuperblocSpec.WellFormed, DiskRep, PartInv, Follows, CurrentOk, Home, SavedRep;
  }

  // Formats.

  lemma FormatStore<N>(s: Store<N>, v: nat)
    requires SuperblocTheorems.Inv(s) && SuperblocSpec.WellFormed(s) && v < |s.saved|
    ensures var t := Formatted(s, v);
            SuperblocSpec.WellFormed(t) && SuperblocTheorems.Inv(t)
            && (forall w :: 0 <= w < |s.saved| && w != v ==> FirstOf(t, w) == FirstOf(s, w))
            && FirstOf(t, v) == if IsLoaded(s, v) then FirstOf(s, v) else None
  {
    var t := Formatted(s, v);
    forall w | 0 <= w < |s.saved|
      ensures GoodVolume(t, w) && NodesOf(t, w) == (if w == v && !IsLoaded(s, v) then [] else NodesOf(s, w))
    {
      assert GoodVolume(s, w);
    }
    hide GoodVolume;
  }

  lemma FormatFollows<N>(s: Store<N>, v: nat)
    requires SuperblocSpec.WellFormed(s) && Follows(s) && v < |s.saved| && SuperblocSpec.WellFormed(Formatted(s, v))
    ensures Follows(Formatted(s, v))
  {
  }

  lemma FormatVolExact<N>(m: Machine<N>, v: nat, value: bv32)
    requires MachineInv(m) && Possible(m, Format(v, value))
    ensures MachineInv(Step(m, Format(v, value))) <==> Allowed(m, Format(v, value))
  {
    FirstBlock(m, v);
    FormatExact(m.disk.table, m.disk.platter, m.store.sizes, m.store.saved, m.next, v, value);
    FormatStore(m.store, v);
    FormatFollows(m.store, v);
    hide SuperblocTheorems.Inv, SuperblocSpec.WellFormed, DiskRep, PartInv, Follows, Home;
  }

  // Saves of the table.

  /** save_mbr leaves all superblocks alone. */
  lemma TableAside<N>(t: Table, platter: seq<Sector<N>>, sizes: seq<nat>, saved: seq<Option<First<N>>>,
                      next: map<N, Pointer<N>>, image: Sector<N>)
    requires PartInv(t) && |platter| == HDA_SECTORS && DiskRep(t, platter, sizes, saved, next)
    ensures DiskRep(t, platter[0 := image], sizes, saved, next)
  {
  }

  lemma TableKeeps<N>(m: Machine<N>)
    requires MachineInv(m)
    ensures MachineInv(Step(m, SaveTable))
  {
    var image: Sector<N> := MbrImage(|m.disk.table|, Entries(m));
    TableAside(m.disk.table, m.disk.platter, m.store.sizes, m.store.saved, m.next, image);
    hide SuperblocTheorems.Inv, SuperblocSpec.WellFormed, DiskRep, PartInv, Follows, Home, CurrentOk;
  }

  // New volumes.

  lemma AddStore<N>(s: Store<N>, n: int)
    requires SuperblocTheorems.Inv(s) && SuperblocSpec.WellFormed(s)
    ensures var t := Added(s, n);
            SuperblocSpec.WellFormed(t) && SuperblocTheorems.Inv(t)
            && (forall w :: 0 <= w < |s.saved| ==> FirstOf(t, w) == FirstOf(s, w) && t.sizes[w] == s.sizes[w])
            && FirstOf(t, |s.saved|) == None && t.sizes[|s.saved|] == (if n < 0 then 0 else n)
  {
    var t := Added(s, n);
    forall w | 0 <= w < |t.saved|
      ensures GoodVolume(t, w) && NodesOf(t, w) == (if w == |s.saved| then [] else NodesOf(s, w))
    {
      if w < |s.saved| { assert GoodVolume(s, w); }
    }
    forall w | 0 <= w < |t.saved| ensures Known(t.saved[w], t.pos) {
      if w < |s.saved| { assert Known(s.saved[w], s.pos); }
    }
    hide GoodVolume;
  }

  lemma AddFollows<N>(s: Store<N>, n: int)
    requires SuperblocSpec.WellFormed(s) && Follows(s) && SuperblocSpec.WellFormed(Added(s, n))
    ensures Follows(Added(s, n))
  {
  }

  /** The entry `new` fills describes no volume there is. */
  lemma NewHome(t: Table, rest: seq<Vol>, n: int, currentVol: nat, w: nat)
    requires PartInv(t) && |t| < MAX_VOLUMES && rest != [] && Home(t, rest, currentVol, w)
    ensures Home(NewTable(t, n), NewRest(t, rest), currentVol, w) <==> currentVol != |t|
  {
    NewExact(t, n);
    var t', rest' := NewTable(t, n), NewRest(t, rest);
    assert NextFree(t) > Start(t[w]) by { assert Sound(t[w]) && Sound(t[|t| - 1]); }
    assert t'[|t|] != t[w] && rest' == rest[1..];
    hide PartInv, NewTable, NewRest, NextFree, Start;
    assert currentVol != |t| ==> (t' + rest')[currentVol] == (t + rest)[currentVol];
  }

  lemma NewPartExact<N>(m: Machine<N>, n: int)
    requires MachineInv(m)
    ensures MachineInv(Step(m, NewPart(n))) <==> Allowed(m, NewPart(n))
  {
    var t, s := m.disk.table, m.store;
    if |t| < MAX_VOLUMES {
      NewExact(t, n);
      if PartInv(NewTable(t, n)) {
        NewIsBlankExact(t, m.disk.platter, s.sizes, s.saved, m.next, n);
      }
      AddStore(s, n);
      AddFollows(s, n);
      if s.loaded.Some? { NewHome(t, m.rest, n, m.currentVol, s.loaded.value.0); }
    }
    assert |NewRest(t, m.rest)| + |NewTable(t, n)| == MAX_VOLUMES;
    hide SuperblocTheorems.Inv, SuperblocSpec.WellFormed, DiskRep, PartInv, Follows, Home;
  }

  // Deletions.

  /** The number that volume `w` had before volume `d` was removed. */
  function Before(d: nat, w: nat): nat {
    if w < d then w else w + 1
  }

  lemma CutFirst<N>(s: Store<N>, d: nat, w: nat)
    requires SuperblocSpec.WellFormed(s) && d < |s.saved| && w < |s.saved| - 1 && !IsLoaded(s, d)
    ensures var t := CutOut(s, d);
            FirstOf(t, w) == FirstOf(s, Before(d, w)) && NodesOf(t, w) == NodesOf(s, Before(d, w))
            && t.sizes[w] == s.sizes[Before(d, w)] && t.held[w] == s.held[Before(d, w)]
            && t.saved[w] == s.saved[Before(d, w)]
  {
    assert IsLoaded(CutOut(s, d), w) <==> IsLoaded(s, Before(d, w));
    hide SuperblocSpec.WellFormed;
  }

  lemma CutFormed<N>(s: Store<N>, d: nat)
    requires SuperblocSpec.WellFormed(s) && d < |s.saved| && !IsLoaded(s, d)
    ensures SuperblocSpec.WellFormed(CutOut(s, d))
  {
    var t := CutOut(s, d);
    forall w | 0 <= w < |t.saved| ensures Known(t.saved[w], t.pos) {
      assert Known(s.saved[Before(d, w)], s.pos);
    }
    hide Known;
  }

  lemma CutStore<N>(s: Store<N>, d: nat)
    requires SuperblocTheorems.Inv(s) && SuperblocSpec.WellFormed(s) && d < |s.saved| && !IsLoaded(s, d)
    ensures SuperblocSpec.WellFormed(CutOut(s, d)) && SuperblocTheorems.Inv(CutOut(s, d))
  {
    CutFormed(s, d);
    var t := CutOut(s, d);
    assert t.pos == s.pos && t.live == s.live && |t.saved| == |t.sizes| == |t.held| == |s.saved| - 1;
    hide CutOut;
    forall w | 0 <= w < |t.saved| ensures GoodVolume(t, w) && NodesOf(t, w) == NodesOf(s, Before(d, w)) {
      CutFirst(s, d, w);
      assert GoodVolume(s, Before(d, w));
    }
    hide SuperblocSpec.WellFormed, GoodVolume, NodesOf;
  }

  lemma CutFollows<N>(s: Store<N>, d: nat)
    requires SuperblocSpec.WellFormed(s) && Follows(s) && d < |s.saved| && !IsLoaded(s, d)
    requires SuperblocSpec.WellFormed(CutOut(s, d))
    ensures Follows(CutOut(s, d))
  {
    if s.loaded.Some? {
      var w := s.loaded.value.0;
      CutFirst(s, d, Renumbered(d, |s.sizes|, w));
      assert Before(d, Renumbered(d, |s.sizes|, w)) == w;
    }
  }

  lemma CutRep<N>(t: Table, v: nat, platter: seq<Sector<N>>, sizes: seq<nat>, saved: seq<Option<First<N>>>,
                  next: map<N, Pointer<N>>)
    requires PartInv(t) && t != [] && |platter| == HDA_SECTORS && DiskRep(t, platter, sizes, saved, next)
    ensures PartInv(DelTable(t, v)) && |sizes| == |saved| == |t|
    ensures DiskRep(DelTable(t, v), platter, Without(sizes, Removed(t, v)), Without(saved, Removed(t, v)), next)
  {
    Partition.DelInv(t, v);
    var d := Removed(t, v);
    var t' := DelTable(t, v);
    assert |t'| == |t| - 1 && |sizes| == |saved| == |t|;
    hide PartInv, SavedRep;
    forall w | 0 <= w < |t'|
      ensures Sound(t'[w]) && Without(sizes, d)[w] == t'[w].nbBlocs
              && SavedRep(platter[Start(t'[w])], Without(saved, d)[w], next)
    {
      assert t'[w] == t[Before(d, w)] && Without(sizes, d)[w] == sizes[Before(d, w)];
      assert Sound(t[Before(d, w)]) && SavedRep(platter[Start(t[Before(d, w)])], saved[Before(d, w)], next);
    }
  }

  /** What the array holds after `del`. */
  lemma DelEntries(t: Table, rest: seq<Vol>, v: nat, i: nat)
    requires t != [] && i < |t| + |rest|
    ensures i < |DelTable(t, v) + DelRest(t, rest)|
    ensures (DelTable(t, v) + DelRest(t, rest))[i] ==
            if Removed(t, v) <= i < |t| - 1 then t[i + 1] else (t + rest)[i]
  {
  }

  lemma DelHome(t: Table, rest: seq<Vol>, v: nat, currentVol: nat, w: nat)
    requires PartInv(t) && t != [] && Home(t, rest, currentVol, w)
    ensures Home(DelTable(t, v), DelRest(t, rest), currentVol, Renumbered(Removed(t, v), |t|, w)) <==>
            StaysHome(t, Removed(t, v), currentVol, w)
  {
    NoTwin(t, w);
    hide PartInv;
    var d := Removed(t, v);
    var t', rest' := DelTable(t, v), DelRest(t, rest);
    var w' := Renumbered(d, |t|, w);
    DelEntries(t, rest, v, currentVol);
    assert |t'| == |t| - 1 && (w != d ==> t'[w'] == t[w]);
    assert currentVol < |t| ==> (t + rest)[currentVol] == t[currentVol];
    hide DelTable, DelRest;
    if currentVol < |t| {
      assert currentVol == w;
      assert w + 1 < |t| ==> t[w + 1] != t[w];
    }
  }

  /** No two volumes have the same entry. */
  lemma NoTwin(t: Table, j: nat)
    requires PartInv(t) && j < |t|
    ensures forall i :: 0 <= i < |t| && t[i] == t[j] ==> i == j
  {
    forall i | 0 <= i < |t| && t[i] == t[j] ensures i == j {
      assert Sound(t[i]) && Sound(t[j]);
    }
  }

  lemma DelPartExact<N>(m: Machine<N>, v: nat)
    requires MachineInv(m)
    ensures MachineInv(Step(m, DelPart(v))) <==> Allowed(m, DelPart(v))
  {
    var t, s := m.disk.table, m.store;
    if t != [] {
      var d := Removed(t, v);
      CutRep(t, v, m.disk.platter, s.sizes, s.saved, m.next);
      if s.loaded.Some? { DelHome(t, m.rest, v, m.currentVol, s.loaded.value.0); }
      if !IsLoaded(s, d) {
        CutStore(s, d);
        CutFollows(s, d);
      }
    }
    assert |DelRest(t, m.rest)| + |DelTable(t, v)| == MAX_VOLUMES;
    hide SuperblocTheorems.Inv, SuperblocSpec.WellFormed, DiskRep, PartInv, Follows, Home;
  }

  // Loads.

  /** A superblock in memory whose volume has been formatted may be forgotten with its list. */
  lemma DropStore<N>(s: Store<N>)
    requires SuperblocTheorems.Inv(s) && SuperblocSpec.WellFormed(s) && MayDrop(s)
    ensures var t := Dropped(s).(loaded := None);
            SuperblocTheorems.Inv(t) && SuperblocSpec.WellFormed(t)
            && (forall w :: 0 <= w < |s.saved| ==>
                  FirstOf(t, w) == if IsLoaded(s, w) && s.saved[w].None? then None else FirstOf(s, w))
  {
    var t := Dropped(s).(loaded := None);
    if s.loaded.Some? && s.saved[s.loaded.value.0].None? {
      forall w | 0 <= w < |s.saved| ensures GoodVolume(t, w)
        && NodesOf(t, w) == (if IsLoaded(s, w) then [] else NodesOf(s, w))
      {
        assert GoodVolume(s, w);
      }
      hide GoodVolume;
    } else {
      Forgotten(s);
      assert t == s.(loaded := None);
    }
  }

  /** load_super does not look at the superblock in memory. */
  lemma LoadAnew<N>(s: Store<N>, v: nat, got: seq<N>)
    requires SuperblocSpec.WellFormed(s) && Enabled(s, Load(v, got))
    ensures var t := Dropped(s).(loaded := None);
            && SuperblocSpec.WellFormed(Dropped(s)) && Enabled(Dropped(s), Load(v, got))
            && SuperblocSpec.WellFormed(t) && Enabled(t, Load(v, got))
            && LoadSuper(Dropped(s), v, got) == LoadSuper(t, v, got)
  {
  }

  /** The list that is lost was not the one in memory, so not a good one. */
  lemma LoadStoreExact<N>(s: Store<N>, v: nat, got: seq<N>)
    requires SuperblocTheorems.Inv(s) && SuperblocSpec.WellFormed(s) && Follows(s) && Enabled(s, Load(v, got))
    ensures SuperblocSpec.WellFormed(Dropped(s)) && Enabled(Dropped(s), Load(v, got))
    ensures SuperblocTheorems.Inv(LoadSuper(Dropped(s), v, got).s) <==>
            MayDrop(s) && (s.saved[v].None? ==> s.sizes[v] >= 2)
  {
    LoadAnew(s, v, got);
    if MayDrop(s) {
      DropStore(s);
      LoadExact(Dropped(s).(loaded := None), v, got);
    } else {
      assert Dropped(s) == s;
      LostList(s, v, got);
    }
  }

  lemma LoadFollows<N>(s: Store<N>, v: nat, got: seq<N>)
    requires SuperblocSpec.WellFormed(s) && Enabled(s, Load(v, got)) && SuperblocSpec.WellFormed(LoadSuper(s, v, got).s)
    ensures Follows(LoadSuper(s, v, got).s)
  {
    if s.saved[v].Some? && s.saved[v].value.List? {
      assert Behind(s.saved[v].value.nodes, s.saved[v].value.nodes, s.live, 0, 0);
    }
  }

  /** A list has been made for the volume, and its first block says that there is one. */
  lemma LoadFresh<N>(m: Machine<N>, v: nat, serial: int, got: seq<N>)
    requires MachineInv(m) && Possible(m, LoadVol(v, serial, got)) && m.store.saved[v].None? && m.store.sizes[v] >= 2
    ensures var t := Step(m, LoadVol(v, serial, got));
            && SuperblocSpec.WellFormed(t.store) && t.next.Keys == t.store.pos.Keys
            && t.disk.table == m.disk.table && DiskTheorems.Inv(t.disk) && CurrentOk(t.current, t.store.loaded, t.next)
            && DiskRep(t.disk.table, t.disk.platter, t.store.sizes, t.store.saved, t.next)
  {
    var s, d := m.store, m.disk;
    FirstBlock(m, v);
    LoadAnew(s, v, got);
    var s' := Dropped(s);
    assert s'.sizes == s.sizes && s'.saved == s.saved && s'.pos == s.pos && s'.live == s.live;
    var p1, n1, l1 := GrowPos(s.pos, got, |got|), GrowNext(m.next, got, |got|), GrowLive(s.live, got, |got|);
    assert NewNodes(got, s.pos, m.next) && Built(p1, n1, l1, s.pos, m.next, s.live, got, |got|);
    var op := LoadVol(v, serial, got);
    assert LoadedState(s', v, got) == StoreAfter(m, op);
    assert DiskAfter(m, op).platter == Burst(d.platter, Start(d.table[v]), InitBlocks(serial, got), |got| + 1);
    assert PartInv(d.table) && |d.platter| == HDA_SECTORS && m.next.Keys == s.pos.Keys;
    assert DiskRep(d.table, d.platter, s'.sizes, s'.saved, m.next);
    hide SuperblocTheorems.Inv, SuperblocSpec.WellFormed, DiskRep, PartInv, FirstRep, Built, NewNodes, Follows, Home;
    hide Burst, InitBlocks, Enabled;
    InitFacts(d.table, d.platter, DiskAfter(m, op).platter, s', s.pos, m.next, s.live, p1, n1, l1, v, serial, got);
  }

  /** The first block of the volume has a superblock. */
  lemma LoadFound<N>(m: Machine<N>, v: nat, serial: int, got: seq<N>)
    requires MachineInv(m) && Possible(m, LoadVol(v, serial, got)) && m.store.saved[v].Some?
    ensures var t := Step(m, LoadVol(v, serial, got));
            && SuperblocSpec.WellFormed(t.store) && t.next.Keys == t.store.pos.Keys
            && t.disk == m.disk && CurrentOk(t.current, t.store.loaded, t.next)
            && t.store.sizes == m.store.sizes && t.store.saved == m.store.saved && t.next == m.next
  {
    FirstBlock(m, v);
    hide SuperblocTheorems.Inv, DiskRep, PartInv, FirstRep, Follows, Home;
  }

  lemma LoadVolExact<N>(m: Machine<N>, v: nat, serial: int, got: seq<N>)
    requires MachineInv(m) && Possible(m, LoadVol(v, serial, got))
    ensures MachineInv(Step(m, LoadVol(v, serial, got))) <==> Allowed(m, LoadVol(v, serial, got))
  {
    var s, op := m.store, LoadVol(v, serial, got);
    LoadStoreExact(s, v, got);
    assert StoreAfter(m, op) == LoadSuper(Dropped(s), v, got).s;
    assert StoreAfter(m, op).loaded.Some? && StoreAfter(m, op).loaded.value.0 == v;
    if Allowed(m, op) {
      if s.saved[v].None? { LoadFresh(m, v, serial, got); } else { LoadFound(m, v, serial, got); }
      LoadFollows(Dropped(s), v, got);
      assert Home(m.disk.table, m.rest, v, v);
    }
    hide SuperblocTheorems.Inv, SuperblocSpec.WellFormed, DiskRep, PartInv, Follows, Home, CurrentOk;
    hide StoreAfter, DiskAfter, NextAfter, CurrentAfter;
  }

  // Saves of superblocks.

  lemma SaveKeeps<N>(m: Machine<N>)
    requires MachineInv(m) && Possible(m, SaveVol)
    ensures MachineInv(Step(m, SaveVol))
  {
    var v := m.store.loaded.value.0;
    InMemory(m);
    FirstBlock(m, v);
    SaveFacts(m.disk.table, m.disk.platter, m.store, m.next, m.current.value);
    StepInv(m.store, SuperblocSpec.Save);
    assert SavedState(m.store) == StoreAfter(m, SaveVol);
    hide SuperblocTheorems.Inv, SuperblocSpec.WellFormed, DiskRep, PartInv;
  }

  // Blocks taken and given back.

  lemma TakeFollows<N>(s: Store<N>)
    requires SuperblocTheorems.Inv(s) && SuperblocSpec.WellFormed(s) && Follows(s)
    requires TakeBloc(s).Done? && SuperblocSpec.WellFormed(TakeBloc(s).s)
    ensures Follows(TakeBloc(s).s)
  {
    if s.loaded.Some? && s.saved[s.loaded.value.0].Some? { TakeTracks(s); }
    hide SuperblocTheorems.Inv, SuperblocSpec.WellFormed, Tracks;
  }

  lemma TakeKeeps<N>(m: Machine<N>)
    requires MachineInv(m)
    ensures MachineInv(Step(m, NewVol))
  {
    StepInv(m.store, NewBloc);
    TakeFollows(m.store);
    if m.store.loaded.Some? {
      InMemory(m);
      TakeFacts(m.store, m.current.value.first, m.next);
      KnownNodes(m.store, m.store.loaded.value.0);
    }
    hide SuperblocTheorems.Inv, SuperblocSpec.WellFormed, DiskRep, PartInv, FirstRep, Follows, Home;
  }

  lemma GiveFollows<N>(s: Store<N>, b: nat, node: N)
    requires SuperblocSpec.WellFormed(s) && Follows(s) && node !in s.pos
    requires GiveBloc(s, b, node).Done? && SuperblocSpec.WellFormed(GiveBloc(s, b, node).s)
    ensures Follows(GiveBloc(s, b, node).s)
  {
    if s.loaded.Some? && s.saved[s.loaded.value.0].Some? { GiveTracks(s, b, node); }
    hide SuperblocSpec.WellFormed, Tracks;
  }

  lemma GiveStoreExact<N>(s: Store<N>, b: nat, node: N)
    requires SuperblocTheorems.Inv(s) && SuperblocSpec.WellFormed(s) && node !in s.pos
    ensures GiveBloc(s, b, node).Done?
    ensures SuperblocTheorems.Inv(GiveBloc(s, b, node).s) <==>
            (s.loaded.Some? && b < s.sizes[s.loaded.value.0] ==> b != 0)
    ensures SuperblocTheorems.Inv(GiveBloc(s, b, node).s) ==> SuperblocSpec.WellFormed(GiveBloc(s, b, node).s)
  {
    if s.loaded.Some? && b < s.sizes[s.loaded.value.0] {
      GiveExact(s, b, node);
    }
  }

  lemma GiveKeeps<N>(m: Machine<N>, b: nat, node: N)
    requires MachineInv(m) && Possible(m, DelVol(b, node)) && SuperblocTheorems.Inv(StoreAfter(m, DelVol(b, node)))
    ensures MachineInv(Step(m, DelVol(b, node)))
  {
    var s, op := m.store, DelVol(b, node);
    GiveStoreExact(s, b, node);
    GiveFollows(s, b, node);
    if Gives(m, op) {
      InMemory(m);
      KnownNodes(s, s.loaded.value.0);
      assert FindIn(s.loaded.value.1.nodes, s.pos, s.live, b) == Absent;
      PushFacts(m.disk.table, m.disk.platter, s, m.next, m.current.value.first, b, node);
      assert GivenState(s, b, node) == StoreAfter(m, op);
      hide SuperblocTheorems.Inv, SuperblocSpec.WellFormed, DiskRep, PartInv, FirstRep, Follows, Home;
    } else {
      assert StoreAfter(m, op) == s;
      hide SuperblocTheorems.Inv, SuperblocSpec.WellFormed, DiskRep, PartInv, FirstRep, Follows, Home;
    }
  }

  lemma DelVolExact<N>(m: Machine<N>, b: nat, node: N)
    requires MachineInv(m) && Possible(m, DelVol(b, node))
    ensures MachineInv(Step(m, DelVol(b, node))) <==> Allowed(m, DelVol(b, node))
  {
    GiveStoreExact(m.store, b, node);
    assert StoreAfter(m, DelVol(b, node)) == GiveBloc(m.store, b, node).s;
    if Allowed(m, DelVol(b, node)) { GiveKeeps(m, b, node); }
    hide SuperblocTheorems.Inv, SuperblocSpec.WellFormed, DiskRep, PartInv, Follows, Home, GiveBloc, StoreAfter;
  }

  /** A command keeps the machine together exactly when it is allowed. */
  lemma StepExact<N>(m: Machine<N>, op: Op<N>)
    requires MachineInv(m) && Possible(m, op)
    ensures MachineInv(Step(m, op)) <==> Allowed(m, op)
  {
    hide MachineInv, Step;
    match op
    case Write(v, b, x) => WriteExact(m, v, b, x);
    case Format(v, value) => FormatVolExact(m, v, value);
    case NewPart(n) => NewPartExact(m, n);
    case DelPart(v) => DelPartExact(m, v);
    case SaveTable => TableKeeps(m);
    case LoadVol(v, serial, got) => LoadVolExact(m, v, serial, got);
    case SaveVol => SaveKeeps(m);
    case NewVol => TakeKeeps(m);
    case DelVol(b, node) => DelVolExact(m, b, node);
  }

  // ---- Sessions ---------------------------------------------------------------------------------

  /** `tr` holds the states of a session of the commands `ops`: each does what it does as long as the machine is
      together; nothing is said of what comes after that. */
  ghost predicate IsSession<N>(tr: seq<Machine<N>>, ops: seq<Op<N>>) {
    && |tr| == |ops| + 1 && MachineInv(tr[0])
    && (forall i :: 0 <= i < |ops| && MachineInv(tr[i]) ==> Possible(tr[i], ops[i]) && tr[i + 1] == Step(tr[i], ops[i]))
  }

  /** Every command is allowed, as long as the machine is together. */
  ghost predicate Orderly<N>(tr: seq<Machine<N>>, ops: seq<Op<N>>)
    requires IsSession(tr, ops)
  {
    forall i :: 0 <= i < |ops| && MachineInv(tr[i]) ==> Allowed(tr[i], ops[i])
  }

  lemma OpAt<N>(tr: seq<Machine<N>>, ops: seq<Op<N>>, i: nat)
    requires IsSession(tr, ops) && i < |ops| && MachineInv(tr[i])
    ensures Possible(tr[i], ops[i]) && tr[i + 1] == Step(tr[i], ops[i])
    ensures Orderly(tr, ops) ==> Allowed(tr[i], ops[i])
  {
  }

  lemma SessionStart<N>(tr: seq<Machine<N>>, ops: seq<Op<N>>)
    requires IsSession(tr, ops)
    ensures |tr| == |ops| + 1 && MachineInv(tr[0])
  {
  }

  lemma {:induction false} SessionInv<N>(tr: seq<Machine<N>>, ops: seq<Op<N>>, i: nat)
    requires IsSession(tr, ops) && Orderly(tr, ops) && i <= |ops|
    ensures MachineInv(tr[i])
  {
    hide MachineInv, Possible, Allowed, Step;
    if i > 0 {
      SessionInv(tr, ops, i - 1);
      OpAt(tr, ops, i - 1);
      StepExact(tr[i - 1], ops[i - 1]);
    }
  }

  /** Disk, table, superblocks, lists and memory fit together in every state of a session exactly when every
      command is allowed. */
  lemma SessionExact<N>(tr: seq<Machine<N>>, ops: seq<Op<N>>)
    requires IsSession(tr, ops)
    ensures (forall i :: 0 <= i < |tr| ==> MachineInv(tr[i])) <==> Orderly(tr, ops)
  {
    hide MachineInv, Possible, Allowed, Step;
    if Orderly(tr, ops) {
      forall i | 0 <= i < |tr| ensures MachineInv(tr[i]) {
        SessionInv(tr, ops, i);
      }
    }
    if forall i :: 0 <= i < |tr| ==> MachineInv(tr[i]) {
      forall i | 0 <= i < |ops| ensures Allowed(tr[i], ops[i]) {
        OpAt(tr, ops, i);
        assert MachineInv(tr[i + 1]);
        StepExact(tr[i], ops[i]);
      }
    }
  }

  // ---- One command, seen from one volume --------------------------------------------------------

  /** The command creates volume `v`. */
  predicate Creates<N>(m: Machine<N>, op: Op<N>, v: nat) {
    op.NewPart? && |m.disk.table| < MAX_VOLUMES && v == |m.disk.table|
  }

  /** The number that volume `v` had before the command. */
  function Was<N>(m: Machine<N>, op: Op<N>, v: nat): nat {
    if op.DelPart? && m.disk.table != [] then Before(Removed(m.disk.table, op.v), v) else v
  }

  /** The list of a volume without superblock. */
  function Fresh(size: int): seq<nat> {
    seq(InitCount(if size < 0 then 0 else size), i => i + 1)
  }

  predicate OnAllocator<N>(op: Op<N>) {
    op.LoadVol? || op.SaveVol? || op.NewVol? || op.DelVol?
  }

  function Event<N>(op: Op<N>): SuperblocSpec.Event<N>
    requires OnAllocator(op)
  {
    match op
    case LoadVol(v, _, got) => Load(v, got)
    case SaveVol => SuperblocSpec.Save
    case NewVol => NewBloc
    case DelVol(b, node) => FreeBloc(b, node)
  }

  /** Volume `v` is formatted while it is not in memory, or dropped from memory after it has been formatted. */
  predicate Restarts<N>(m: Machine<N>, op: Op<N>, v: nat)
    requires v < |m.store.saved|
  {
    || (op.Format? && op.v == v && !IsLoaded(m.store, v))
    || (op.LoadVol? && IsLoaded(m.store, v) && m.store.saved[v].None?)
  }

  /** What the command makes of the free list `l` of volume `v`. */
  function FreeAfter<N>(m: Machine<N>, op: Op<N>, v: nat, l: seq<nat>): seq<nat>
    requires |m.store.saved| == |m.store.sizes| == |m.disk.table|
    requires v < |m.disk.table| || Creates(m, op, v)
  {
    if Creates(m, op, v) then Fresh(op.n)
    else if Restarts(m, op, v) then Fresh(m.store.sizes[v])
    else if OnAllocator(op) && IsLoaded(m.store, v) then Effect(l, m.store.sizes[v], Event(op))
    else l
  }

  lemma SameCount<N>(m: Machine<N>)
    requires MachineInv(m)
    ensures |m.store.saved| == |m.store.sizes| == |m.store.held| == |m.disk.table|
    ensures SuperblocTheorems.Inv(m.store) && SuperblocSpec.WellFormed(m.store) && DiskTheorems.Inv(m.disk)
  {
  }

  lemma Widths<N>(m: Machine<N>, op: Op<N>, v: nat)
    requires MachineInv(m) && Possible(m, op) && v < |Step(m, op).disk.table|
    ensures !Creates(m, op, v) ==> Was(m, op, v) < |m.disk.table| && v < |m.disk.table|
  {
    hide MachineInv, Possible;
  }

  lemma StepStore<N>(m: Machine<N>, op: Op<N>)
    requires MachineInv(m) && Possible(m, op)
    ensures Step(m, op).store == StoreAfter(m, op)
  {
    hide MachineInv, Possible;
  }

  lemma LoadFree<N>(s: Store<N>, w: nat, got: seq<N>, v: nat)
    requires SuperblocTheorems.Inv(s) && SuperblocSpec.WellFormed(s) && v < |s.saved| && Enabled(s, Load(w, got))
    requires MayDrop(s) && (s.saved[w].None? ==> s.sizes[w] >= 2)
    ensures SuperblocSpec.WellFormed(Dropped(s)) && Enabled(Dropped(s), Load(w, got))
    ensures SuperblocTheorems.Inv(LoadSuper(Dropped(s), w, got).s)
    ensures FreeList(LoadSuper(Dropped(s), w, got).s, v) ==
            if IsLoaded(s, v) && s.saved[v].None? then Fresh(s.sizes[v]) else FreeList(s, v)
  {
    LoadAnew(s, w, got);
    DropStore(s);
    var t := Dropped(s).(loaded := None);
    FreeListStep(t, Load(w, got), v);
    if !(IsLoaded(s, v) && s.saved[v].None?) {
      KnownNodes(s, v);
      SameFreeList(s, t, v);
    }
    hide SuperblocTheorems.Inv, SuperblocSpec.WellFormed;
  }

  lemma AddFree<N>(s: Store<N>, n: int, v: nat)
    requires SuperblocTheorems.Inv(s) && SuperblocSpec.WellFormed(s) && v <= |s.saved|
    ensures SuperblocTheorems.Inv(Added(s, n))
    ensures FreeList(Added(s, n), v) == if v == |s.saved| then Fresh(n) else FreeList(s, v)
  {
    AddStore(s, n);
    if v < |s.saved| {
      assert GoodVolume(s, v);
    }
  }

  lemma CutFree<N>(s: Store<N>, d: nat, v: nat)
    requires SuperblocTheorems.Inv(s) && SuperblocSpec.WellFormed(s) && d < |s.saved| && !IsLoaded(s, d)
    requires v < |s.saved| - 1
    ensures SuperblocTheorems.Inv(CutOut(s, d)) && FreeList(CutOut(s, d), v) == FreeList(s, Before(d, v))
  {
    CutStore(s, d);
    CutFirst(s, d, v);
    assert GoodVolume(s, Before(d, v));
    hide SuperblocTheorems.Inv, SuperblocSpec.WellFormed, GoodVolume;
  }

  lemma FormatFree<N>(s: Store<N>, w: nat, v: nat)
    requires SuperblocTheorems.Inv(s) && SuperblocSpec.WellFormed(s) && w < |s.saved| && v < |s.saved|
    ensures SuperblocTheorems.Inv(Formatted(s, w))
    ensures FreeList(Formatted(s, w), v) == if v == w && !IsLoaded(s, w) then Fresh(s.sizes[v]) else FreeList(s, v)
  {
    FormatStore(s, w);
    if v != w || IsLoaded(s, w) {
      KnownNodes(s, v);
      SameFreeList(s, Formatted(s, w), v);
    }
  }

  /** The call is one of SuperblocTheorems. */
  lemma CallFree<N>(m: Machine<N>, op: Op<N>, v: nat)
    requires MachineInv(m) && Possible(m, op) && Allowed(m, op) && (op.SaveVol? || op.NewVol? || op.DelVol?)
    requires v < |m.store.saved|
    ensures SuperblocTheorems.Inv(m.store) && SuperblocTheorems.Inv(StoreAfter(m, op))
    ensures v < |StoreAfter(m, op).saved| && v < |m.store.sizes|
    ensures FreeList(StoreAfter(m, op), v) ==
            if IsLoaded(m.store, v) then Effect(FreeList(m.store, v), m.store.sizes[v], Event(op))
            else FreeList(m.store, v)
  {
    var s := m.store;
    assert Enabled(s, Event(op)) && Disciplined(s, Event(op));
    FreeListStep(s, Event(op), v);
    assert StoreAfter(m, op) == SuperblocSpec.Step(s, Event(op)).s;
    hide SuperblocTheorems.Inv, DiskRep, Follows, PartInv;
  }

  /** The volumes are as many as the table says, before and after the command, and the one deleted is not in
      memory. */
  lemma StoreWidths<N>(m: Machine<N>, op: Op<N>, v: nat)
    requires MachineInv(m) && Possible(m, op) && Allowed(m, op) && v < |Step(m, op).disk.table|
    ensures |m.store.saved| == |m.store.sizes| == |m.disk.table|
    ensures SuperblocTheorems.Inv(m.store) && SuperblocSpec.WellFormed(m.store)
    ensures SuperblocTheorems.Inv(StoreAfter(m, op)) && v < |StoreAfter(m, op).saved|
    ensures v < |m.disk.table| || Creates(m, op, v)
    ensures !Creates(m, op, v) ==> Was(m, op, v) < |m.store.saved|
    ensures op.DelPart? && m.disk.table != [] ==> !IsLoaded(m.store, Removed(m.disk.table, op.v))
  {
    StepExact(m, op);
    SameCount(m);
    SameCount(Step(m, op));
    StepStore(m, op);
    Widths(m, op, v);
    hide MachineInv, Step, StoreAfter, DiskAfter, SuperblocTheorems.Inv, SuperblocSpec.WellFormed;
  }

  lemma FreeStep<N>(m: Machine<N>, op: Op<N>, v: nat)
    requires MachineInv(m) && Possible(m, op) && Allowed(m, op) && v < |Step(m, op).disk.table|
    ensures |m.store.saved| == |m.store.sizes| == |m.disk.table| && SuperblocTheorems.Inv(m.store)
    ensures SuperblocTheorems.Inv(StoreAfter(m, op)) && v < |StoreAfter(m, op).saved|
    ensures v < |m.disk.table| || Creates(m, op, v)
    ensures !Creates(m, op, v) ==> Was(m, op, v) < |m.store.saved|
    ensures FreeList(StoreAfter(m, op), v) ==
            FreeAfter(m, op, v, if Creates(m, op, v) then [] else FreeList(m.store, Was(m, op, v)))
  {
    StoreWidths(m, op, v);
    var s := m.store;
    if op.LoadVol? { assert Enabled(s, Load(op.v, op.got)) && MayDrop(s); }
    if OnAllocator(op) && !op.LoadVol? {
      CallFree(m, op, v);
      hide MachineInv, DiskAfter, StoreAfter, FreeList, Effect;
    } else {
      hide MachineInv, DiskAfter, SuperblocTheorems.Inv, SuperblocSpec.WellFormed, FreeList, Effect;
      match op
      case Format(w, _) => FormatFree(s, w, v);
      case NewPart(n) => if |m.disk.table| < MAX_VOLUMES { AddFree(s, n, v); }
      case DelPart(w) => if m.disk.table != [] { CutFree(s, Removed(m.disk.table, w), v); }
      case LoadVol(w, _, got) => LoadFree(s, w, got, v);
      case _ =>
    }
  }

  // ---- One command, seen from one block ---------------------------------------------------------

  /** What the command makes of the content `x` of block `b` of volume `v`. A write past the end of its volume
      may fall on it; block 0 gets the superblock in memory when that is saved. */
  function DataAfter<N>(m: Machine<N>, op: Op<N>, v: nat, b: nat, x: Sector<N>): Sector<N> {
    match op
    case Write(w, c, y) =>
      if w < |m.disk.table| && v < |m.disk.table| && Start(m.disk.table[w]) + c == Start(m.disk.table[v]) + b then y
      else x
    case Format(w, value) => if w == v then Filled(value) else x
    case LoadVol(w, serial, got) =>
      if w == v && v < |m.store.saved| && m.store.saved[v].None? && b <= |got| then
        if b == 0 then SuperImage(serial, Wild) else NodeImage(b, Below(got, b - 1))
      else x
    case SaveVol =>
      if b == 0 && m.current.Some? && IsLoaded(m.store, v) then
        SuperImage(m.current.value.serial, m.current.value.first)
      else x
    case _ => x
  }

  lemma DataOfEdit<N>(m: Machine<N>, op: Op<N>, v: nat, b: nat)
    requires MachineInv(m) && Possible(m, op) && Allowed(m, op) && (op.NewPart? || op.DelPart?)
    requires InRange(DiskAfter(m, op).table, v, b)
    ensures DiskTheorems.Inv(DiskAfter(m, op))
    ensures Creates(m, op, v) ==>
              && 0 <= NextFree(m.disk.table) + b < |m.disk.platter|
              && DiskTheorems.At(DiskAfter(m, op), v, b) == m.disk.platter[NextFree(m.disk.table) + b]
    ensures !Creates(m, op, v) ==>
              && InRange(m.disk.table, Was(m, op, v), b)
              && DiskTheorems.At(DiskAfter(m, op), v, b) == DiskTheorems.At(m.disk, Was(m, op, v), b)
  {
    var d := m.disk;
    if op.NewPart? {
      if Creates(m, op, v) { DiskTheorems.NewFound(d, op.n, b); } else { DiskTheorems.NewBack(d, op.n, v, b); }
    } else {
      DiskTheorems.DelBack(d, op.v, v, b);
    }
    hide SuperblocTheorems.Inv, SuperblocSpec.WellFormed, DiskRep, DiskTheorems.At, Follows, Home;
  }

  /** An initialisation inside a volume, seen from a block. */
  lemma BurstBack<N>(d: DiskTheorems.World<Sector<N>>, w: nat, x: seq<Sector<N>>, v: nat, b: nat)
    requires DiskTheorems.Inv(d) && w < |d.table| && |x| == d.table[w].nbBlocs && InRange(d.table, v, b)
    ensures 0 <= Start(d.table[w]) < |d.platter|
    ensures Burst(d.platter, Start(d.table[w]), x, |x|)[Place(d.table, v, b)] ==
            if v == w then x[b] else DiskTheorems.At(d, v, b)
  {
    assert Sound(d.table[w]) && Sound(d.table[v]);
  }

  lemma DataOfLoad<N>(m: Machine<N>, op: Op<N>, v: nat, b: nat)
    requires MachineInv(m) && Possible(m, op) && Allowed(m, op) && op.LoadVol?
    requires InRange(m.disk.table, v, b)
    ensures DiskTheorems.Inv(m.disk) && DiskTheorems.Inv(DiskAfter(m, op)) && DiskAfter(m, op).table == m.disk.table
    ensures DiskTheorems.At(DiskAfter(m, op), v, b) == DataAfter(m, op, v, b, DiskTheorems.At(m.disk, v, b))
  {
    FirstBlock(m, op.v);
    SameCount(m);
    if m.store.saved[op.v].None? {
      BurstBack(m.disk, op.v, InitBlocks(op.serial, op.got), v, b);
    }
    hide SuperblocTheorems.Inv, SuperblocSpec.WellFormed, DiskRep, Follows, Home;
  }

  lemma DataOfBlocks<N>(m: Machine<N>, op: Op<N>, v: nat, b: nat)
    requires MachineInv(m) && Possible(m, op) && !op.NewPart? && !op.DelPart? && !op.LoadVol?
    requires InRange(m.disk.table, v, b)
    ensures DiskTheorems.Inv(m.disk) && DiskTheorems.Inv(DiskAfter(m, op)) && DiskAfter(m, op).table == m.disk.table
    ensures DiskTheorems.At(DiskAfter(m, op), v, b) == DataAfter(m, op, v, b, DiskTheorems.At(m.disk, v, b))
  {
    var d := m.disk;
    SameCount(m);
    if op.Write? { FirstBlock(m, op.v); }
    if op.Format? { DiskTheorems.FormatBack(d, op.v, Filled(op.value), v, b); }
    if op.SaveVol? {
      InMemory(m);
      FirstBlock(m, m.store.loaded.value.0);
      PlaceInjective(d.table, m.store.loaded.value.0, 0, v, b);
    }
    hide SuperblocTheorems.Inv, SuperblocSpec.WellFormed, DiskRep, Follows, Home;
  }

  lemma DataStep<N>(m: Machine<N>, op: Op<N>, v: nat, b: nat)
    requires MachineInv(m) && Possible(m, op) && Allowed(m, op) && InRange(Step(m, op).disk.table, v, b)
    ensures DiskTheorems.Inv(m.disk) && DiskTheorems.Inv(Step(m, op).disk)
    ensures Creates(m, op, v) ==>
              && 0 <= NextFree(m.disk.table) + b < |m.disk.platter|
              && DiskTheorems.At(Step(m, op).disk, v, b) == m.disk.platter[NextFree(m.disk.table) + b]
    ensures !Creates(m, op, v) ==>
              && InRange(m.disk.table, Was(m, op, v), b)
              && DiskTheorems.At(Step(m, op).disk, v, b) ==
                 DataAfter(m, op, v, b, DiskTheorems.At(m.disk, Was(m, op, v), b))
  {
    SameCount(m);
    assert Step(m, op).disk == DiskAfter(m, op);
    assert !(op.NewPart? || op.DelPart?) ==> DiskAfter(m, op).table == m.disk.table;
    hide MachineInv, Step, DiskAfter, Allowed, Possible, DiskTheorems.Inv, DiskTheorems.At;
    if op.NewPart? || op.DelPart? {
      DataOfEdit(m, op, v, b);
    } else if op.LoadVol? {
      DataOfLoad(m, op, v, b);
    } else {
      DataOfBlocks(m, op, v, b);
    }
  }

  // ---- Every volume for itself ------------------------------------------------------------------

  lemma FreeBack<N>(tr: seq<Machine<N>>, ops: seq<Op<N>>, n: nat, v: nat)
    requires IsSession(tr, ops) && Orderly(tr, ops) && n <= |ops| && v < |tr[n].disk.table|
    ensures n == 0 ==> SuperblocTheorems.Inv(tr[0].store) && v < |tr[0].store.saved|
    ensures n > 0 ==>
              var m, op := tr[n - 1], ops[n - 1];
              && |m.store.saved| == |m.store.sizes| == |m.disk.table| && (v < |m.disk.table| || Creates(m, op, v))
              && (!Creates(m, op, v) ==> Was(m, op, v) < |m.disk.table|)
  {
    SessionStart(tr, ops);
    hide Possible, Allowed, Step, MachineInv, IsSession, Orderly;
    SessionInv(tr, ops, n);
    SameCount(tr[n]);
    if n > 0 {
      var k := n - 1;
      SessionInv(tr, ops, k);
      OpAt(tr, ops, k);
      SameCount(tr[k]);
      Widths(tr[k], ops[k], v);
    }
  }

  /** The free list of what is volume `v` after `n` commands, by the calls made on it alone. */
  ghost function FreeReplay<N>(tr: seq<Machine<N>>, ops: seq<Op<N>>, n: nat, v: nat): seq<nat>
    requires IsSession(tr, ops) && Orderly(tr, ops) && n <= |ops| && v < |tr[n].disk.table|
  {
    FreeBack(tr, ops, n, v);
    if n == 0 then FreeList(tr[0].store, v)
    else
      var m, op := tr[n - 1], ops[n - 1];
      FreeAfter(m, op, v, if Creates(m, op, v) then [] else FreeReplay(tr, ops, n - 1, Was(m, op, v)))
  }

  /** Every free list is what the calls made while its volume was in memory made of it, from the list it began
      with or from the full one it got when it was formatted or created, whatever happened to the rest of the
      disk and however the volumes were numbered since. */
  lemma {:induction false} EachAlone<N>(tr: seq<Machine<N>>, ops: seq<Op<N>>, n: nat, v: nat)
    requires IsSession(tr, ops) && Orderly(tr, ops) && n <= |ops| && v < |tr[n].disk.table|
    ensures SuperblocTheorems.Inv(tr[n].store) && v < |tr[n].store.saved|
    ensures FreeList(tr[n].store, v) == FreeReplay(tr, ops, n, v)
  {
    FreeBack(tr, ops, n, v);
    if n > 0 {
      var k := n - 1;
      hide MachineInv, Possible, Allowed, Step, FreeAfter, FreeList, Was, Creates, IsSession, Orderly;
      SessionInv(tr, ops, k);
      OpAt(tr, ops, k);
      StepStore(tr[k], ops[k]);
      FreeStep(tr[k], ops[k], v);
      if !Creates(tr[k], ops[k], v) {
        EachAlone(tr, ops, k, Was(tr[k], ops[k], v));
      }
    }
  }

  /** Where command `k` took the content of a block from, or what it made of it. */
  lemma DataBack<N>(tr: seq<Machine<N>>, ops: seq<Op<N>>, k: nat, v: nat, b: nat)
    requires IsSession(tr, ops) && Orderly(tr, ops) && k < |ops| && InRange(tr[k + 1].disk.table, v, b)
    ensures DiskTheorems.Inv(tr[k].disk) && DiskTheorems.Inv(tr[k + 1].disk)
    ensures Creates(tr[k], ops[k], v) ==>
              && 0 <= NextFree(tr[k].disk.table) + b < |tr[k].disk.platter|
              && DiskTheorems.At(tr[k + 1].disk, v, b) == tr[k].disk.platter[NextFree(tr[k].disk.table) + b]
    ensures !Creates(tr[k], ops[k], v) ==>
              && InRange(tr[k].disk.table, Was(tr[k], ops[k], v), b)
              && DiskTheorems.At(tr[k + 1].disk, v, b) ==
                 DataAfter(tr[k], ops[k], v, b, DiskTheorems.At(tr[k].disk, Was(tr[k], ops[k], v), b))
  {
    SessionStart(tr, ops);
    hide MachineInv, Possible, Allowed, Step, DataAfter, Was, Creates, IsSession, Orderly, DiskTheorems.At;
    SessionInv(tr, ops, k);
    OpAt(tr, ops, k);
    DataStep(tr[k], ops[k], v, b);
  }

  /** The content of block `b` of what is volume `v` after `n` commands, by the commands that concern it. */
  ghost function DataReplay<N>(tr: seq<Machine<N>>, ops: seq<Op<N>>, n: nat, v: nat, b: nat): Sector<N>
    requires IsSession(tr, ops) && Orderly(tr, ops) && n <= |ops| && InRange(tr[n].disk.table, v, b)
  {
    assert n == 0 ==> DiskTheorems.Inv(tr[0].disk) by { SameCount(tr[0]); }
    if n == 0 then DiskTheorems.At(tr[0].disk, v, b)
    else
      DataBack(tr, ops, n - 1, v, b);
      var m, op := tr[n - 1], ops[n - 1];
      if Creates(m, op, v) then m.disk.platter[NextFree(m.disk.table) + b]
      else DataAfter(m, op, v, b, DataReplay(tr, ops, n - 1, Was(m, op, v), b))
  }

  /** Every block holds what was last written or formatted there, or the superblock or the node of the
      initialisation of its volume, or the superblock last saved from memory, or what its sector held when its volume
      was created, whatever was done elsewhere: through allocations, saves of other superblocks and of tables, and
      partition edits. */
  lemma {:induction false} EachBlockAlone<N>(tr: seq<Machine<N>>, ops: seq<Op<N>>, n: nat, v: nat, b: nat)
    requires IsSession(tr, ops) && Orderly(tr, ops) && n <= |ops| && InRange(tr[n].disk.table, v, b)
    ensures DiskTheorems.Inv(tr[n].disk)
    ensures DiskTheorems.At(tr[n].disk, v, b) == DataReplay(tr, ops, n, v, b)
  {
    SessionStart(tr, ops);
    hide MachineInv, Possible, Allowed, Step, DataAfter, Was, Creates, IsSession, Orderly, DiskTheorems.At;
    if n == 0 {
      SameCount(tr[0]);
    } else {
      var k := n - 1;
      DataBack(tr, ops, k, v, b);
      if !Creates(tr[k], ops[k], v) {
        EachBlockAlone(tr, ops, k, Was(tr[k], ops[k], v), b);
      }
    }
  }

  // ---- The table --------------------------------------------------------------------------------

  /** The first sector holds the table `t`: load_mbr would bring it back. */
  predicate Remembers<N>(m: Machine<N>, t: Table) {
    && m.disk.platter != []
    && var x := m.disk.platter[0];
      IsTable(x) && x.nbVolume == |t| <= MAX_VOLUMES && x.volumes[..x.nbVolume] == t
  }

  lemma TableOp<N>(m: Machine<N>, op: Op<N>, t: Table)
    requires MachineInv(m) && Possible(m, op)
    ensures op.SaveTable? ==> Remembers(Step(m, op), m.disk.table)
    ensures !op.SaveTable? && Remembers(m, t) ==> Remembers(Step(m, op), t)
  {
    if op.Write? || op.Format? || op.LoadVol? { FirstBlock(m, op.v); }
    if op.SaveVol? {
      InMemory(m);
      FirstBlock(m, m.store.loaded.value.0);
    }
    assert !op.SaveTable? ==> Step(m, op).disk.platter[0] == m.disk.platter[0];
    assert |Step(m, op).disk.platter| == HDA_SECTORS;
    assert Entries(m)[..|m.disk.table|] == m.disk.table;
    hide MachineInv;
  }

  lemma {:induction false} TableStays<N>(tr: seq<Machine<N>>, ops: seq<Op<N>>, k: nat, n: nat, t: Table)
    requires IsSession(tr, ops) && Orderly(tr, ops) && k <= n < |tr| == |ops| + 1 && Remembers(tr[k], t)
    requires forall j :: k <= j < n ==> !ops[j].SaveTable?
    ensures Remembers(tr[n], t)
    decreases n - k
  {
    hide MachineInv, Possible, Allowed, Step, Remembers, IsSession, Orderly;
    if k < n {
      TableStays(tr, ops, k, n - 1, t);
      SessionInv(tr, ops, n - 1);
      OpAt(tr, ops, n - 1);
      TableOp(tr[n - 1], ops[n - 1], t);
    }
  }

  /** What was last saved as the table is what load_mbr finds. */
  lemma TableComesBack<N>(tr: seq<Machine<N>>, ops: seq<Op<N>>, k: nat, n: nat)
    requires IsSession(tr, ops) && Orderly(tr, ops) && k < n < |tr| == |ops| + 1 && ops[k].SaveTable?
    requires forall j :: k < j < n ==> !ops[j].SaveTable?
    ensures Remembers(tr[n], tr[k].disk.table)
  {
    hide MachineInv, Possible, Allowed, Step, Remembers, IsSession, Orderly;
    SessionInv(tr, ops, k);
    OpAt(tr, ops, k);
    TableOp(tr[k], ops[k], tr[k].disk.table);
    TableStays(tr, ops, k + 1, n, tr[k].disk.table);
  }
}

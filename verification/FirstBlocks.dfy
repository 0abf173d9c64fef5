/** The first blocks of the volumes, by what is written there rather than by what it stands for: what load_vol finds
    in one or makes of it, what save_vol puts back, and how long a volume keeps its serial number. */
module FirstBlocks {
  import opened Collections
  import opened Drive
  import opened Partition
  import opened Volume
  import opened SuperblocSpec
  import opened Superbloc
  import opened Session
  import DiskTheorems
  import SuperblocTheorems

  /** The first sector of volume `v` holds `x`. */
  predicate Begins<N(==)>(d: DiskTheorems.World<Sector<N>>, v: nat, x: Sector<N>) {
    v < |d.table| && 0 <= Start(d.table[v]) < |d.platter| && d.platter[Start(d.table[v])] == x
  }

  /** What an unsigned int read from the start of the sector says: 0xDEADBEEF. A format writes the highest byte of its
      value first. */
  predicate ReadsMagic<N(==)>(x: Sector<N>) {
    match x
    case Bytes(data, _, _) => |data| >= 4 && FromBytes(data[0], data[1], data[2], data[3]) == 0xDEADBEEF
    case Filled(value) => value == 0xEFBEADDE
    case MbrImage(nbVolume, _) => nbVolume == 0xDEADBEEF
    case SuperImage(_, _) => true
    case NodeImage(_, _) => true
  }

  lemma MagicExact<N>(x: Sector<N>)
    ensures HasMagic(x) <==> ReadsMagic(x)
  {
    if x.Bytes? && |x.data| >= 4 { BytesMagic(x.data, x.serial, x.first); }
  }

  // ---- Loads ------------------------------------------------------------------------------------

  /** A sector that does not read as the magic number is no superblock: load_vol writes one there, and a node on each
      of the other blocks; after a volume of one block too, on the sector that follows it. */
  lemma LoadInitialises<N>(m: Machine<N>, v: nat, serial: int, got: seq<N>, x: Sector<N>)
    requires MachineInv(m) && Possible(m, LoadVol(v, serial, got)) && Begins(m.disk, v, x) && !ReadsMagic(x)
    ensures var u, at := Session.Step(m, LoadVol(v, serial, got)), Start(m.disk.table[v]);
            && |got| == (if m.disk.table[v].nbBlocs == 1 then 1 else m.disk.table[v].nbBlocs - 1)
            && |m.disk.platter| == |u.disk.platter| == 256
            && 1 <= at && at + |got| < 256 && u.disk.table == m.disk.table
            && u.disk.platter[at] == SuperImage(serial, Wild)
            && (forall k :: 1 <= k <= |got| ==>
                  u.disk.platter[at + k] == NodeImage(k, if k < |got| then To(got[k]) else Null))
            && (forall i :: 0 <= i < at || at + |got| < i < 256 ==> u.disk.platter[i] == m.disk.platter[i])
  {
    MagicExact(x);
    LoadFreshly(m, v, serial, got);
    FreshStep(m, v, serial, got);
    FirstBlock(m, v);
    hide MachineInv, Possible, Session.Step, HasMagic, ReadsMagic, GrowNext, PlatterLoaded, NewNodes, SavedRep;
    FreshBlocks(m.disk.platter, m.disk.table, v, m.store.saved, serial, got, Start(m.disk.table[v]));
  }

  /** The nodes make a list, in the order of the blocks, which is in memory with the superblock. */
  lemma LoadMakesList<N>(m: Machine<N>, v: nat, serial: int, got: seq<N>, x: Sector<N>)
    requires MachineInv(m) && Possible(m, LoadVol(v, serial, got)) && Begins(m.disk, v, x) && !ReadsMagic(x)
    ensures got != []
    ensures var u := Session.Step(m, LoadVol(v, serial, got));
            && u.current == Some(Superblock(serial, To(got[0]))) && u.currentVol == v
            && u.store.loaded == Some((v, List(got)))
            && (forall k :: 0 <= k < |got| ==> got[k] in u.store.pos && u.store.pos[got[k]] == k + 1)
            && (forall k :: 0 <= k < |got| ==>
                  got[k] in u.next && u.next[got[k]] == if k + 1 < |got| then To(got[k + 1]) else Null)
  {
    MagicExact(x);
    LoadFreshly(m, v, serial, got);
    FreshStep(m, v, serial, got);
    FreshNodes(m, v, serial, got);
    hide MachineInv, Possible, Session.Step, HasMagic, ReadsMagic, GrowNext, InitPos, PlatterLoaded, NewNodes;
    FreshList(m.store.pos, m.next, got);
  }

  /** The sectors and the list that an initialisation makes. */
  lemma FreshBlocks<N>(platter: seq<Sector<N>>, t: Table, v: nat, saved: seq<Option<First<N>>>, serial: int,
                       got: seq<N>, at: nat)
    requires v < |t| && v < |saved| && saved[v].None? && Start(t[v]) == at && at + |got| < |platter|
    ensures var r := PlatterLoaded(platter, t, v, saved, serial, got);
            && |r| == |platter| && r[at] == SuperImage(serial, Wild)
            && (forall k :: 1 <= k <= |got| ==> r[at + k] == NodeImage(k, if k < |got| then To(got[k]) else Null))
            && (forall i :: 0 <= i < at || at + |got| < i < |platter| ==> r[i] == platter[i])
  {
  }

  lemma FreshList<N>(pos: map<N, nat>, next: map<N, Pointer<N>>, got: seq<N>)
    requires got != [] && NewNodes(got, pos, next)
    ensures forall k :: 0 <= k < |got| ==> got[k] in pos + InitPos(got) && (pos + InitPos(got))[got[k]] == k + 1
    ensures var next' := GrowNext(next, got, |got|);
            forall k :: 0 <= k < |got| ==>
              got[k] in next' && next'[got[k]] == if k + 1 < |got| then To(got[k + 1]) else Null
  {
    AllNext(next, got);
    hide GrowNext;
  }

  lemma LoadFreshly<N>(m: Machine<N>, v: nat, serial: int, got: seq<N>)
    requires MachineInv(m) && Possible(m, LoadVol(v, serial, got)) && v < |m.disk.table|
    requires 0 <= Start(m.disk.table[v]) < |m.disk.platter| && !HasMagic(m.disk.platter[Start(m.disk.table[v])])
    ensures v < |m.store.saved| && m.store.saved[v].None? && |got| == InitCount(m.disk.table[v].nbBlocs)
    ensures NewNodes(got, m.store.pos, m.next)
    ensures |m.disk.platter| == 256 && 1 <= Start(m.disk.table[v]) && Start(m.disk.table[v]) + |got| < 256
  {
    FirstBlock(m, v);
    hide DiskRep, SuperblocTheorems.Inv, Follows, PartInv, HasMagic;
  }

  lemma FreshStep<N>(m: Machine<N>, v: nat, serial: int, got: seq<N>)
    requires MachineInv(m) && Possible(m, LoadVol(v, serial, got))
    requires v < |m.store.saved| && m.store.saved[v].None? && got != []
    ensures var u := Session.Step(m, LoadVol(v, serial, got));
            && u.disk.table == m.disk.table
            && u.disk.platter == PlatterLoaded(m.disk.platter, m.disk.table, v, m.store.saved, serial, got)
            && u.current == Some(Superblock(serial, To(got[0]))) && u.currentVol == v
            && u.next == GrowNext(m.next, got, |got|)
  {
    hide MachineInv, Possible, InitBlocks, GrowNext, PlatterLoaded, StoreAfter;
  }

  lemma FreshNodes<N>(m: Machine<N>, v: nat, serial: int, got: seq<N>)
    requires MachineInv(m) && Possible(m, LoadVol(v, serial, got)) && v < |m.store.saved| && m.store.saved[v].None?
    ensures Session.Step(m, LoadVol(v, serial, got)).store.loaded == Some((v, List(got)))
    ensures Session.Step(m, LoadVol(v, serial, got)).store.pos == m.store.pos + InitPos(got)
  {
    LoadAnew(m.store, v, got);
    hide DiskRep, SuperblocTheorems.Inv, Follows, PartInv, GrowNext, ListRep;
  }

  /** A sector that begins with the magic number is taken for a superblock, with what lies where the serial number
      and the list of one would: nothing is written. */
  lemma LoadReads<N>(m: Machine<N>, v: nat, serial: int, got: seq<N>, x: Sector<N>)
    requires MachineInv(m) && Possible(m, LoadVol(v, serial, got)) && Begins(m.disk, v, x) && ReadsMagic(x)
    ensures var u := Session.Step(m, LoadVol(v, serial, got));
            && u.disk == m.disk && u.next == m.next && u.currentVol == v
            && u.current == Some(match x
                                 case SuperImage(number, first) => Superblock(number, first)
                                 case Bytes(_, number, first) => Superblock(number, first)
                                 case NodeImage(posBloc, _) => Superblock(posBloc, Wild)
                                 case Filled(_) => Superblock(0xDEADBEEF - 0x1_0000_0000, Wild)
                                 case MbrImage(_, volumes) =>
                                   var kind := if volumes == [] then BASE else volumes[0].kind;
                                   Superblock(if kind == BASE then 0 else if kind == ANNEXE then 1
                                              else if kind == OTHER then 2 else 3, Wild))
  {
    MagicExact(x);
    LoadKnown(m, v, serial, got, x);
    hide MachineInv, Possible, Session.Step;
  }

  lemma LoadKnown<N>(m: Machine<N>, v: nat, serial: int, got: seq<N>, x: Sector<N>)
    requires MachineInv(m) && Possible(m, LoadVol(v, serial, got)) && Begins(m.disk, v, x) && HasMagic(x)
    ensures v < |m.store.saved| && m.store.saved[v].Some?
    ensures var u := Session.Step(m, LoadVol(v, serial, got));
            && u.disk == m.disk && u.next == m.next && u.currentVol == v
            && u.current == Some(Superblock(SerialField(x), FirstField(x)))
  {
    FirstBlock(m, v);
    hide DiskRep, SuperblocTheorems.Inv, SuperblocSpec.WellFormed, Follows, PartInv, HasMagic;
  }

  // ---- Saves ------------------------------------------------------------------------------------

  lemma SavedDisk<N>(m: Machine<N>)
    requires MachineInv(m) && m.store.loaded.Some?
    ensures var t, w := m.disk.table, m.store.loaded.value.0;
            && Possible(m, SaveVol) && m.current.Some? && w < |t| && 0 <= Start(t[w]) < |m.disk.platter|
            && Session.Step(m, SaveVol).disk
               == m.disk.(platter := m.disk.platter[Start(t[w])
                                                    := SuperImage(m.current.value.serial, m.current.value.first)])
  {
    InMemory(m);
    FirstBlock(m, m.store.loaded.value.0);
    hide SuperblocTheorems.Inv, SuperblocSpec.WellFormed, DiskRep, Follows, Home, PartInv;
  }

  /** Loading a volume that has a superblock and saving it at once leaves the disk as it was. */
  lemma LoadThenSave<N>(m: Machine<N>, v: nat, serial: int, got: seq<N>, number: int, first: Pointer<N>)
    requires MachineInv(m) && Possible(m, LoadVol(v, serial, got)) && Allowed(m, LoadVol(v, serial, got))
    requires Begins(m.disk, v, SuperImage(number, first))
    ensures var u := Session.Step(m, LoadVol(v, serial, got));
            MachineInv(u) && Possible(u, SaveVol) && Session.Step(u, SaveVol).disk == m.disk
  {
    var u := Session.Step(m, LoadVol(v, serial, got));
    StepExact(m, LoadVol(v, serial, got));
    LoadReads(m, v, serial, got, SuperImage(number, first));
    assert u.store.loaded.Some? && u.store.loaded.value.0 == v;
    InMemory(u);
    hide MachineInv, Session.Step;
    SavedDisk(u);
  }

  /** Saving the volume in memory and loading it again brings back the same superblock. */
  lemma SaveThenLoad<N>(m: Machine<N>, serial: int, got: seq<N>)
    requires MachineInv(m) && m.store.loaded.Some?
    ensures var u, op := Session.Step(m, SaveVol), Op<N>.LoadVol(m.store.loaded.value.0, serial, got);
            && MachineInv(u) && Possible(u, op) && Allowed(u, op)
            && var t := Session.Step(u, op);
              t.disk == u.disk && t.current == m.current && t.next == m.next && t.store.loaded == m.store.loaded
  {
    var u, v := Session.Step(m, SaveVol), m.store.loaded.value.0;
    StepExact(m, SaveVol);
    SavedDisk(m);
    assert u.store.loaded.None? && u.store.saved == m.store.saved[v := Some(m.store.loaded.value.1)];
    assert u.next == m.next && v < |u.disk.table|;
    SameCount(u);
    hide MachineInv, Session.Step, DiskRep;
    LoadReads(u, v, serial, got, SuperImage(m.current.value.serial, m.current.value.first));
    LoadedStore(u, v, serial, got);
  }

  lemma LoadedStore<N>(m: Machine<N>, v: nat, serial: int, got: seq<N>)
    requires MachineInv(m) && Possible(m, LoadVol(v, serial, got)) && v < |m.store.saved| && m.store.saved[v].Some?
    ensures Session.Step(m, LoadVol(v, serial, got)).store.loaded == Some((v, m.store.saved[v].value))
  {
    LoadAnew(m.store, v, got);
    hide DiskRep, SuperblocTheorems.Inv, Follows, PartInv;
  }

  // ---- Serial numbers ---------------------------------------------------------------------------

  /** Volume `v` has the serial number `number`: its first block is a superblock that says so, and so does the one
      in memory if that is the superblock of this volume. */
  predicate Branded<N(==)>(m: Machine<N>, v: nat, number: int) {
    && v < |m.disk.table| && 0 <= Start(m.disk.table[v]) < |m.disk.platter|
    && m.disk.platter[Start(m.disk.table[v])].SuperImage? && m.disk.platter[Start(m.disk.table[v])].serial == number
    && (m.store.loaded.Some? && m.store.loaded.value.0 == v ==>
          m.current.Some? && m.current.value.serial == number)
  }

  /** The command formats volume `v` or writes on its first sector. */
  predicate Overwrites<N>(m: Machine<N>, op: Op<N>, v: nat) {
    || (op.Format? && op.v == v)
    || (op.Write? && op.v < |m.disk.table| && v < |m.disk.table|
        && Start(m.disk.table[op.v]) + op.b == Start(m.disk.table[v]))
  }

  /** What is volume `v` after `n` commands was volume `u` after the first `k`, and none of those between them
      formatted it or wrote on its first sector. */
  ghost predicate Lasts<N>(tr: seq<Machine<N>>, ops: seq<Op<N>>, k: nat, n: nat, v: nat, u: nat)
    requires k <= n <= |ops| < |tr|
    decreases n
  {
    if n == k then v == u
    else
      var m, op := tr[n - 1], ops[n - 1];
      !Creates(m, op, v) && !Overwrites(m, op, Was(m, op, v)) && Lasts(tr, ops, k, n - 1, Was(m, op, v), u)
  }

  lemma BrandGiven<N>(m: Machine<N>, v: nat, serial: int, got: seq<N>)
    requires MachineInv(m) && Possible(m, LoadVol(v, serial, got)) && v < |m.disk.table|
    requires 0 <= Start(m.disk.table[v]) < |m.disk.platter| && !HasMagic(m.disk.platter[Start(m.disk.table[v])])
    ensures Branded(Session.Step(m, LoadVol(v, serial, got)), v, serial)
  {
    LoadFreshly(m, v, serial, got);
    FreshStep(m, v, serial, got);
    FreshNodes(m, v, serial, got);
    hide MachineInv, Possible, Session.Step, HasMagic, PlatterLoaded, NewNodes;
    FreshBlocks(m.disk.platter, m.disk.table, v, m.store.saved, serial, got, Start(m.disk.table[v]));
  }

  lemma BrandOfEdit<N>(m: Machine<N>, op: Op<N>, v: nat, number: int)
    requires MachineInv(m) && Possible(m, op) && Allowed(m, op) && (op.NewPart? || op.DelPart?)
    requires v < |Session.Step(m, op).disk.table| && !Creates(m, op, v) && Branded(m, Was(m, op, v), number)
    ensures Branded(Session.Step(m, op), v, number)
  {
    hide SuperblocTheorems.Inv, SuperblocSpec.WellFormed, DiskRep, Follows, Home, PartInv;
  }

  lemma BrandOfLoad<N>(m: Machine<N>, op: Op<N>, v: nat, number: int)
    requires MachineInv(m) && Possible(m, op) && Allowed(m, op) && op.LoadVol? && Branded(m, v, number)
    ensures Branded(Session.Step(m, op), v, number)
  {
    FirstBlock(m, v);
    FirstBlock(m, op.v);
    if op.v == v { LoadKnown(m, v, op.serial, op.got, m.disk.platter[Start(m.disk.table[v])]); }
    hide SuperblocTheorems.Inv, SuperblocSpec.WellFormed, DiskRep, Follows, Home;
  }

  lemma BrandOfOther<N>(m: Machine<N>, op: Op<N>, v: nat, number: int)
    requires MachineInv(m) && Possible(m, op) && Allowed(m, op) && !op.NewPart? && !op.DelPart? && !op.LoadVol?
    requires !op.SaveVol?
    requires !Overwrites(m, op, v) && Branded(m, v, number)
    ensures Branded(Session.Step(m, op), v, number)
  {
    FirstBlock(m, v);
    if op.Format? || op.Write? { FirstBlock(m, op.v); }
    if m.store.loaded.Some? { InMemory(m); }
    hide SuperblocTheorems.Inv, SuperblocSpec.WellFormed, DiskRep, Follows, Home;
  }

  lemma BrandOfSave<N>(m: Machine<N>, v: nat, number: int)
    requires MachineInv(m) && Possible(m, SaveVol) && Branded(m, v, number)
    ensures Branded(Session.Step(m, SaveVol), v, number)
  {
    SavedDisk(m);
    assert Session.Step(m, SaveVol).store.loaded.None?;
    FirstBlock(m, v);
    FirstBlock(m, m.store.loaded.value.0);
    hide MachineInv, Session.Step;
  }

  lemma BrandStep<N>(m: Machine<N>, op: Op<N>, v: nat, number: int)
    requires MachineInv(m) && Possible(m, op) && Allowed(m, op) && v < |Session.Step(m, op).disk.table|
    requires !Creates(m, op, v) && !Overwrites(m, op, Was(m, op, v)) && Branded(m, Was(m, op, v), number)
    ensures Branded(Session.Step(m, op), v, number)
  {
    hide MachineInv, Possible, Allowed, Session.Step, Branded, Overwrites;
    if op.NewPart? || op.DelPart? {
      BrandOfEdit(m, op, v, number);
    } else if op.LoadVol? {
      BrandOfLoad(m, op, v, number);
    } else if op.SaveVol? {
      BrandOfSave(m, v, number);
    } else {
      BrandOfOther(m, op, v, number);
    }
  }

  lemma {:induction false} BrandLasts<N>(tr: seq<Machine<N>>, ops: seq<Op<N>>, k: nat, n: nat, v: nat, u: nat,
                                         number: int)
    requires IsSession(tr, ops) && Orderly(tr, ops) && k <= n <= |ops| < |tr| && v < |tr[n].disk.table|
    requires Lasts(tr, ops, k, n, v, u) && Branded(tr[k], u, number)
    ensures Branded(tr[n], v, number)
    decreases n
  {
    hide MachineInv, Possible, Allowed, Session.Step, Branded, Overwrites, IsSession, Orderly, Was, Creates;
    if k < n {
      var j := n - 1;
      SessionInv(tr, ops, j);
      OpAt(tr, ops, j);
      Widths(tr[j], ops[j], v);
      BrandLasts(tr, ops, k, j, Was(tr[j], ops[j], v), u, number);
      BrandStep(tr[j], ops[j], v, number);
    }
  }

  /** A volume keeps the serial number it got when load_vol initialised it, on its first block and, while it is in
      memory, there as well, whatever is done to it and to the other volumes, until it is formatted or its first
      block is written. */
  lemma SerialKept<N>(tr: seq<Machine<N>>, ops: seq<Op<N>>, k: nat, n: nat, v: nat, u: nat)
    requires IsSession(tr, ops) && Orderly(tr, ops) && k < n <= |ops| < |tr| && v < |tr[n].disk.table|
    requires ops[k].LoadVol? && ops[k].v == u < |tr[k].disk.table|
    requires 0 <= Start(tr[k].disk.table[u]) < |tr[k].disk.platter|
    requires !ReadsMagic(tr[k].disk.platter[Start(tr[k].disk.table[u])])
    requires Lasts(tr, ops, k + 1, n, v, u)
    ensures 0 <= Start(tr[n].disk.table[v]) < |tr[n].disk.platter|
    ensures var x := tr[n].disk.platter[Start(tr[n].disk.table[v])];
            x.SuperImage? && x.serial == ops[k].serial
    ensures tr[n].store.loaded.Some? && tr[n].store.loaded.value.0 == v ==>
              tr[n].current.Some? && tr[n].current.value.serial == ops[k].serial
  {
    hide MachineInv, Possible, Allowed, Session.Step, Lasts, IsSession, Orderly, HasMagic, ReadsMagic;
    MagicExact(tr[k].disk.platter[Start(tr[k].disk.table[u])]);
    SessionInv(tr, ops, k);
    OpAt(tr, ops, k);
    BrandGiven(tr[k], u, ops[k].serial, ops[k].got);
    BrandLasts(tr, ops, k + 1, n, v, u, ops[k].serial);
  }
}

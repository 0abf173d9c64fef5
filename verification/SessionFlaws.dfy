/** What `del` does to the superblock in memory: nothing, which is the fault. The volumes after the one deleted
    get new numbers, and current_vol keeps the old one. Then what `new` does to the nodes of a deleted volume:
    nothing either. */
module SessionFlaws {
  import opened Collections
  import opened Drive
  import opened Partition
  import opened Volume
  import opened SuperblocSpec
  import opened SuperblocTheorems
  import opened Superbloc
  import opened Session
  import DiskTheorems

  /** Volume `w` is in memory. After `del`, save_super writes to the sector the superblock came from exactly
      when a volume after `w` was deleted, or when the entry of current_vol is the last one of the table or beyond,
      which `del` leaves where it is. */
  lemma GoesHomeExact<N>(m: Machine<N>, v: nat)
    requires MachineInv(m) && m.store.loaded.Some?
    ensures var t, w := m.disk.table, m.store.loaded.value.0;
            var e := Entries(Session.Step(m, DelPart(v)));
            && w < |t| && m.currentVol < |e|
            && (Start(e[m.currentVol]) == Start(t[w]) <==> w < Removed(t, v) || m.currentVol >= |t| - 1)
  {
    var t, w := m.disk.table, m.store.loaded.value.0;
    InMemory(m);
    DelEntries(t, m.rest, v, m.currentVol);
    NoTwin(t, w);
    if m.currentVol + 1 < |t| {
      assert Entries(m)[m.currentVol] == t[m.currentVol];
      assert Start(t[w]) < Start(t[w + 1]) by { assert Sound(t[w]) && Sound(t[w + 1]); }
    }
    hide SuperblocTheorems.Inv, SuperblocSpec.WellFormed, DiskRep, Follows, PartInv, DelTable, DelRest;
  }

  /** In the other case it overwrites the superblock of the next volume, which `del` has moved to that number,
      and leaves the one of its own volume as it was. */
  lemma DelMisplaces<N>(m: Machine<N>, v: nat)
    requires MachineInv(m) && m.store.loaded.Some?
    requires var w := m.store.loaded.value.0; Removed(m.disk.table, v) <= w && m.currentVol < |m.disk.table| - 1
    ensures var t, w, u := m.disk.table, m.store.loaded.value.0, Session.Step(m, DelPart(v));
            && w + 1 < |t| && w < |u.disk.table| && u.disk.table[w] == t[w + 1]
            && u.current.Some? && u.currentVol < |Entries(u)|
            && 0 <= Start(t[w]) < Start(t[w + 1]) == Start(Entries(u)[u.currentVol]) < |u.disk.platter|
            && PutBack(u)[Start(t[w + 1])] == SuperImage(m.current.value.serial, m.current.value.first)
            && PutBack(u)[Start(t[w])] == m.disk.platter[Start(t[w])]
  {
    var t, w := m.disk.table, m.store.loaded.value.0;
    InMemory(m);
    DelEntries(t, m.rest, v, m.currentVol);
    NoTwin(t, w);
    assert Entries(m)[m.currentVol] == t[m.currentVol];
    assert Start(t[w]) < Start(t[w + 1]) by { assert Sound(t[w]) && Sound(t[w + 1]); }
    hide SuperblocTheorems.Inv, SuperblocSpec.WellFormed, DiskRep, Follows, PartInv;
  }

  // ---- A session --------------------------------------------------------------------------------

  /** `k` volumes of two blocks on a disk without superblocks, nothing in memory. */
  ghost predicate Plain(m: Machine<nat>, k: nat) {
    && MachineInv(m) && |m.disk.table| == |m.store.sizes| == |m.store.saved| == k
    && m.store.loaded.None? && m.store.pos == map[]
    && (forall i :: 0 <= i < HDA_SECTORS ==> m.disk.platter[i] == Filled(0))
    && NextFree(m.disk.table) == 1 + 2 * k
    && (forall i :: 0 <= i < k ==> m.store.sizes[i] == 2 && m.store.saved[i] == None)
  }

  lemma PlainNew(m: Machine<nat>, k: nat)
    requires Plain(m, k) && k < MAX_VOLUMES
    ensures MachineInv(m) && Possible(m, NewPart(2)) && Allowed(m, NewPart(2))
    ensures Plain(Session.Step(m, NewPart(2)), k + 1)
  {
    Session.StepExact(m, NewPart(2));
    NewExact(m.disk.table, 2);
    hide SuperblocTheorems.Inv, SuperblocSpec.WellFormed, DiskRep, Follows, PartInv, CurrentOk, Start;
  }

  function Blank(): Machine<nat> {
    Machine(DiskTheorems.World(seq(HDA_SECTORS, _ => Filled(0)), []), seq(MAX_VOLUMES, _ => Vol(UNUSED, 0, 0, 0)),
            SuperblocSpec.Boot([]), map[], None, 0)
  }

  const THREE: seq<Op<nat>> := [NewPart(2), NewPart(2), NewPart(2), LoadVol(1, 0, [7])]

  lemma PlainLoad(m: Machine<nat>)
    requires Plain(m, 3)
    ensures Possible(m, LoadVol(1, 0, [7])) && Allowed(m, LoadVol(1, 0, [7]))
    ensures var u := Session.Step(m, LoadVol(1, 0, [7]));
            && MachineInv(u) && u.store.loaded.Some? && u.store.loaded.value.0 == u.currentVol == 1
            && u.disk.table == m.disk.table
  {
    FirstBlock(m, 1);
    assert End(m.disk.table[2]) == 7 && Sound(m.disk.table[2]);
    assert Possible(m, LoadVol(1, 0, [7]));
    Session.StepExact(m, LoadVol(1, 0, [7]));
    hide SuperblocTheorems.Inv, DiskRep, Follows, CurrentOk, GrowNext;
  }

  /** An orderly session from the blank machine to `m`. */
  ghost predicate Reaches(ops: seq<Op<nat>>, m: Machine<nat>) {
    exists tr :: IsSession(tr, ops) && Orderly(tr, ops) && tr[0] == Blank() && tr[|ops|] == m
  }

  lemma Here()
    requires MachineInv(Blank())
    ensures Reaches([], Blank())
  {
    var tr := [Blank()];
    assert IsSession(tr, []);
  }

  lemma Then(ops: seq<Op<nat>>, m: Machine<nat>, op: Op<nat>)
    requires Reaches(ops, m) && MachineInv(m) && Possible(m, op) && Allowed(m, op)
    ensures Reaches(ops + [op], Session.Step(m, op))
  {
    hide MachineInv, Possible, Allowed, Session.Step, Blank;
    var tr :| IsSession(tr, ops) && Orderly(tr, ops) && tr[0] == Blank() && tr[|ops|] == m;
    var tr' := tr + [Session.Step(m, op)];
    assert forall i :: 0 <= i < |tr| ==> tr'[i] == tr[i];
    assert IsSession(tr', ops + [op]);
  }

  lemma BlankPlain()
    ensures MachineInv(Blank()) && Plain(Blank(), 0)
  {
  }

  /** `new` of two blocks, `k` times. */
  function News(k: nat): seq<Op<nat>> {
    if k == 0 then [] else News(k - 1) + [NewPart(2)]
  }

  lemma {:induction false} NewMany(k: nat) returns (m: Machine<nat>)
    requires k <= MAX_VOLUMES
    ensures Reaches(News(k), m) && Plain(m, k)
  {
    hide MachineInv, Possible, Allowed, Session.Step, Plain, Blank, Reaches;
    if k == 0 {
      BlankPlain();
      Here();
      m := Blank();
    } else {
      var before := NewMany(k - 1);
      PlainNew(before, k - 1);
      Then(News(k - 1), before, NewPart(2));
      m := Session.Step(before, NewPart(2));
    }
  }

  lemma NewThree() returns (m: Machine<nat>)
    ensures Reaches([NewPart(2), NewPart(2), NewPart(2)], m) && Plain(m, 3)
  {
    m := NewMany(3);
    assert News(2) == [NewPart(2), NewPart(2)] && News(3) == [NewPart(2), NewPart(2), NewPart(2)];
    hide Plain, Reaches;
  }

  /** Eight times `new` from the blank machine make eight volumes in order; a ninth changes nothing. */
  lemma EightNews()
    ensures exists m: Machine<nat> ::
              && Reaches(News(8), m) && MachineInv(m) && |m.disk.table| == 8
              && Session.Step(m, NewPart(2)) == m
  {
    var m := NewMany(8);
    assert MachineInv(m) && |m.disk.table| == 8 && Session.Step(m, NewPart(2)) == m;
    hide MachineInv, Session.Step, Reaches;
  }

  /** Three volumes, the second one loaded and the first one deleted: save_super destroys the superblock of the
      third. */
  lemma SuperblockLost()
    ensures exists m: Machine<nat> ::
              && Reaches(THREE, m) && MachineInv(m) && m.store.loaded.Some? && m.store.loaded.value.0 == 1
              && |m.disk.table| == 3 && m.current.Some?
              && var u := Session.Step(m, DelPart(0));
                && u.current.Some? && u.currentVol < |Entries(u)|
                && 0 <= Start(Entries(u)[u.currentVol]) == Start(m.disk.table[2]) < |u.disk.platter|
                && PutBack(u)[Start(m.disk.table[2])] == SuperImage(m.current.value.serial, m.current.value.first)
  {
    var m3 := NewThree();
    PlainLoad(m3);
    var m := Session.Step(m3, LoadVol(1, 0, [7]));
    assert MachineInv(m3) && |m3.disk.table| == 3;
    hide MachineInv, Possible, Allowed, Session.Step, Plain, Blank, PutBack, Entries, Reaches;
    Then([NewPart(2), NewPart(2), NewPart(2)], m3, LoadVol(1, 0, [7]));
    assert [NewPart(2), NewPart(2), NewPart(2)] + [LoadVol(1, 0, [7])] == THREE;
    InMemory(m);
    DelMisplaces(m, 0);
  }

  // ---- List nodes taken for superblocks ---------------------------------------------------------

  /** A volume whose first sector has the magic number, but no list behind it, counts as one with a superblock
      whose list was never assigned; load_super accepts it, and new_bloc follows the pointer. */
  lemma NoList<N>(t: Table, platter: seq<Sector<N>>, s: Store<N>, next: map<N, Pointer<N>>, v: nat)
    requires PartInv(t) && |platter| == HDA_SECTORS && DiskRep(t, platter, s.sizes, s.saved, next)
    requires SuperblocSpec.WellFormed(s) && v < |t| && FirstField(platter[Start(t[v])]) == Wild
    requires HasMagic(platter[Start(t[v])])
    ensures s.saved[v] == Some(Unset) && Enabled(s, Load(v, []))
    ensures LoadSuper(s, v, []).Done? && SuperblocSpec.WellFormed(LoadSuper(s, v, []).s)
    ensures TakeBloc(LoadSuper(s, v, []).s) == Crash
  {
    assert SavedRep(platter[Start(t[v])], s.saved[v], next);
    hide PartInv;
  }

  /** `new` and `del`, with nothing in memory. */
  lemma Edited(m: Machine<nat>, op: Op<nat>)
    requires MachineInv(m) && m.store.loaded.None? && (op.NewPart? || op.DelPart?)
    requires op.NewPart? && |m.disk.table| < MAX_VOLUMES ==>
               Fits(m.disk.table, Partition.New(op.n)) && FreshStart(m.disk.table, m.disk.platter)
    ensures Possible(m, op) && Allowed(m, op)
    ensures var u := Session.Step(m, op);
            && MachineInv(u) && u.store.loaded.None? && u.store.pos == m.store.pos
            && u.disk.platter == m.disk.platter && |u.store.saved| == |u.store.sizes| == |u.disk.table|
            && u.disk.table == (if op.NewPart? then NewTable(m.disk.table, op.n) else DelTable(m.disk.table, op.v))
            && (op.NewPart? && |m.disk.table| < MAX_VOLUMES ==>
                  u.store.saved == m.store.saved + [None] && u.next == m.next)
  {
    Session.StepExact(m, op);
    SameCount(Session.Step(m, op));
    hide SuperblocTheorems.Inv, SuperblocSpec.WellFormed, DiskRep, Follows, PartInv, CurrentOk, FreshStart, Fits;
    hide NewTable, DelTable;
  }

  function Base(sect: int, n: int): Vol {
    Vol(BASE, 0, sect, n)
  }

  /** A disk without anything. */
  predicate Clear(platter: seq<Sector<nat>>) {
    |platter| == HDA_SECTORS && forall i :: 0 <= i < HDA_SECTORS ==> platter[i] == Filled(0)
  }

  lemma FirstTables(platter: seq<Sector<nat>>)
    requires Clear(platter)
    ensures NewTable([], 2) == [Base(1, 2)] && Fits([], Partition.New(2)) && FreshStart([], platter)
    ensures var t := [Base(1, 2)];
            NewTable(t, 4) == [Base(1, 2), Base(3, 4)] && Fits(t, Partition.New(4)) && FreshStart(t, platter)
  {
  }

  lemma BlankState()
    ensures var m := Blank();
            m.disk.table == [] && m.store.saved == [] && m.store.loaded.None? && m.store.pos == map[]
            && Clear(m.disk.platter)
  {
  }

  lemma NewTwo() returns (m: Machine<nat>)
    ensures Reaches([NewPart(2), NewPart(4)], m) && MachineInv(m) && m.store.loaded.None?
    ensures m.disk.table == [Base(1, 2), Base(3, 4)] && m.store.saved == [None, None] && m.store.pos == map[]
    ensures Clear(m.disk.platter)
  {
    var m0 := Blank();
    BlankPlain();
    BlankState();
    Here();
    var none: seq<Op<nat>> := [];
    hide MachineInv, Possible, Allowed, Session.Step, Plain, Blank, Reaches;
    hide Clear, NewTable, DelTable, Fits, FreshStart;
    FirstTables(m0.disk.platter);
    Edited(m0, NewPart(2));
    var m1 := Session.Step(m0, NewPart(2));
    Then(none, m0, NewPart(2));
    Edited(m1, NewPart(4));
    m := Session.Step(m1, NewPart(4));
    Then(none + [NewPart(2)], m1, NewPart(4));
    assert none + [NewPart(2)] + [NewPart(4)] == [NewPart(2), NewPart(4)];
  }

  /** The second volume gets its list, with node 1 on sector 4. */
  lemma LoadSecond(m: Machine<nat>) returns (u: Machine<nat>)
    requires MachineInv(m) && m.store.loaded.None?
    requires m.disk.table == [Base(1, 2), Base(3, 4)] && m.store.saved == [None, None] && m.store.pos == map[]
    requires Clear(m.disk.platter)
    ensures Possible(m, LoadVol(1, 0, [7, 8, 9])) && Allowed(m, LoadVol(1, 0, [7, 8, 9]))
    ensures u == Session.Step(m, LoadVol(1, 0, [7, 8, 9])) && MachineInv(u)
    ensures u.store.loaded.Some? && u.currentVol == 1 && u.disk.table == m.disk.table
    ensures |u.disk.platter| == HDA_SECTORS && u.disk.platter[1] == Filled(0) && u.disk.platter[4].NodeImage?
  {
    var op := Op<nat>.LoadVol(1, 0, [7, 8, 9]);
    FirstBlock(m, 1);
    assert Possible(m, op) && Allowed(m, op);
    Session.StepExact(m, op);
    LoadedDisk(m);
    u := Session.Step(m, op);
    assert u.disk.platter == PlatterLoaded(m.disk.platter, m.disk.table, 1, m.store.saved, 0, [7, 8, 9]);
    hide MachineInv, SuperblocSpec.WellFormed, Follows, PlatterLoaded, GrowNext, InitPos;
  }

  lemma SaveSecond(m: Machine<nat>) returns (u: Machine<nat>)
    requires MachineInv(m) && m.store.loaded.Some? && m.currentVol == 1
    requires m.disk.table == [Base(1, 2), Base(3, 4)]
    ensures Possible(m, SaveVol) && Allowed(m, SaveVol) && u == Session.Step(m, SaveVol)
    ensures MachineInv(u) && u.store.loaded.None? && u.disk.table == m.disk.table
    ensures |u.disk.platter| == |m.disk.platter| == HDA_SECTORS
    ensures u.disk.platter[1] == m.disk.platter[1] && u.disk.platter[4] == m.disk.platter[4]
  {
    Session.StepExact(m, SaveVol);
    InMemory(m);
    u := Session.Step(m, SaveVol);
    assert Entries(m)[1] == Base(3, 4);
    assert u.disk.platter == PutBack(m) && |m.disk.platter| == HDA_SECTORS;
    assert u.store.loaded.None?;
    hide MachineInv;
  }

  lemma LoadAndSave(m: Machine<nat>, ops: seq<Op<nat>>) returns (u: Machine<nat>)
    requires Reaches(ops, m) && MachineInv(m) && m.store.loaded.None?
    requires m.disk.table == [Base(1, 2), Base(3, 4)] && m.store.saved == [None, None] && m.store.pos == map[]
    requires Clear(m.disk.platter)
    ensures Reaches(ops + [LoadVol(1, 0, [7, 8, 9])] + [SaveVol], u) && MachineInv(u) && u.store.loaded.None?
    ensures u.disk.table == m.disk.table && |u.disk.platter| == HDA_SECTORS
    ensures u.disk.platter[1] == Filled(0) && u.disk.platter[4].NodeImage?
  {
    hide MachineInv, Possible, Allowed, Session.Step, Reaches, Blank, Clear;
    var op := Op<nat>.LoadVol(1, 0, [7, 8, 9]);
    var l := LoadSecond(m);
    u := SaveSecond(l);
    Then(ops, m, op);
    Then(ops + [op], l, SaveVol);
  }

  lemma LoadedDisk(m: Machine<nat>)
    requires |m.disk.platter| == HDA_SECTORS && m.disk.table == [Base(1, 2), Base(3, 4)]
    requires m.store.saved == [None, None]
    ensures var d := PlatterLoaded(m.disk.platter, m.disk.table, 1, m.store.saved, 0, [7, 8, 9]);
            && |d| == HDA_SECTORS && d[1] == m.disk.platter[1] && d[4].NodeImage?
  {
    assert Start(m.disk.table[1]) == 3;
    assert InitBlocks<nat>(0, [7, 8, 9])[1].NodeImage?;
  }

  const SEVEN: seq<Op<nat>> :=
    [NewPart(2), NewPart(4), LoadVol(1, 0, [7, 8, 9]), SaveVol, DelPart(0), DelPart(0), NewPart(3)]

  /** An orderly session after which `new` gives a volume whose first block is a node of a deleted one. The disk
      then stands for a volume with a superblock; load_vol and new_vol on it follow a pointer that was never
      assigned. */
  lemma NodeInherited()
    ensures exists m: Machine<nat> ::
              && Reaches(SEVEN, m) && MachineInv(m) && |m.disk.table| == |m.store.saved| == 1
              && Possible(m, NewPart(2)) && !Allowed(m, NewPart(2))
              && var u := Session.Step(m, NewPart(2));
                var s := u.store.(saved := m.store.saved + [Some(Unset)]);
                && PartInv(u.disk.table) && |u.disk.platter| == HDA_SECTORS && |u.disk.table| == 2
                && u.disk.platter[Start(u.disk.table[1])].NodeImage?
                && DiskRep(u.disk.table, u.disk.platter, s.sizes, s.saved, u.next)
                && SuperblocSpec.WellFormed(s) && Enabled(s, Load(1, []))
                && SuperblocSpec.WellFormed(LoadSuper(s, 1, []).s) && TakeBloc(LoadSuper(s, 1, []).s) == Crash
  {
    var m2 := NewTwo();
    var ops: seq<Op<nat>> := [NewPart(2), NewPart(4)];
    var m4 := LoadAndSave(m2, ops);
    var m := DelBoth(m4, ops + [LoadVol(1, 0, [7, 8, 9])] + [SaveVol]);
    hide Reaches, MachineInv, Possible, Allowed, Session.Step, Blank, DiskRep, LoadSuper, TakeBloc;
    assert ops + [LoadVol(1, 0, [7, 8, 9])] + [SaveVol] + [DelPart(0)] + [DelPart(0)] + [NewPart(3)] == SEVEN;
    NewOverNode(m);
  }

  lemma DelBoth(m: Machine<nat>, ops: seq<Op<nat>>) returns (u: Machine<nat>)
    requires Reaches(ops, m) && MachineInv(m) && m.store.loaded.None?
    requires m.disk.table == [Base(1, 2), Base(3, 4)] && |m.disk.platter| == HDA_SECTORS
    requires m.disk.platter[1] == Filled(0) && m.disk.platter[4].NodeImage?
    ensures Reaches(ops + [DelPart(0)] + [DelPart(0)] + [NewPart(3)], u) && MachineInv(u) && u.store.loaded.None?
    ensures u.disk.table == [Base(1, 3)] && |u.disk.platter| == HDA_SECTORS && u.disk.platter[4].NodeImage?
    ensures |u.store.saved| == 1
  {
    hide MachineInv, Possible, Allowed, Session.Step, Reaches, Blank;
    Edited(m, DelPart(0));
    Then(ops, m, DelPart(0));
    var m1 := Session.Step(m, DelPart(0));
    assert m1.disk.table == [Base(3, 4)];
    Edited(m1, DelPart(0));
    Then(ops + [DelPart(0)], m1, DelPart(0));
    var m2 := Session.Step(m1, DelPart(0));
    assert m2.disk.table == [];
    Edited(m2, NewPart(3));
    Then(ops + [DelPart(0)] + [DelPart(0)], m2, NewPart(3));
    u := Session.Step(m2, NewPart(3));
    assert u.disk.table == [Base(1, 3)];
  }

  lemma NewOverNode(m: Machine<nat>)
    requires MachineInv(m) && m.store.loaded.None? && m.disk.table == [Base(1, 3)] && |m.store.saved| == 1
    requires |m.disk.platter| == HDA_SECTORS && m.disk.platter[4].NodeImage?
    ensures Possible(m, NewPart(2)) && !Allowed(m, NewPart(2))
    ensures var u := Session.Step(m, NewPart(2));
            var s := u.store.(saved := m.store.saved + [Some(Unset)]);
            && PartInv(u.disk.table) && |u.disk.platter| == HDA_SECTORS && |u.disk.table| == 2
            && u.disk.platter[Start(u.disk.table[1])].NodeImage?
            && DiskRep(u.disk.table, u.disk.platter, s.sizes, s.saved, u.next)
            && SuperblocSpec.WellFormed(s) && Enabled(s, Load(1, []))
            && SuperblocSpec.WellFormed(LoadSuper(s, 1, []).s) && TakeBloc(LoadSuper(s, 1, []).s) == Crash
  {
    var t := m.disk.table;
    assert NextFree(t) == 4;
    NewExact(t, 2);
    var u := Session.Step(m, NewPart(2));
    var s := u.store.(saved := m.store.saved + [Some(Unset)]);
    assert u.disk.table == [Base(1, 3), Base(4, 2)];
    AddStore(m.store, 2);
    assert DiskRep(u.disk.table, u.disk.platter, s.sizes, s.saved, u.next) by {
      assert SavedRep(m.disk.platter[Start(t[0])], m.store.saved[0], m.next);
      hide SuperblocTheorems.Inv, SuperblocSpec.WellFormed, Follows;
    }
    assert SuperblocSpec.WellFormed(s) by {
      assert Known(m.store.saved[0], m.store.pos);
    }
    hide SuperblocTheorems.Inv, SuperblocSpec.WellFormed, DiskRep, Follows, CurrentOk, PartInv;
    NoList(u.disk.table, u.disk.platter, s, u.next, 1);
  }
}

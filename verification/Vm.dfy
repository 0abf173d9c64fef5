/** The commands of src/vm/vm.c, over the table, the driver and the allocator. Whatever they are given that they
    can run with, each is proved to be the command of Session it stands for; and to leave all in order exactly
    when Session allows it, so that what is proved of sessions holds of the commands. */
module Vm {
  import opened Collections
  import opened Drive
  import opened Partition
  import opened Volume
  import opened SuperblocSpec
  import opened Superbloc
  import opened Session
  import DiskTheorems
  import SuperblocTheorems

  class Vm<N(==)> {
    const mbr: Mbr
    const drive: Drive.Disk<Sector<N>>
    const alloc: Allocator<N>

    ghost function State(): Machine<N>
      reads mbr, mbr.volumes, drive, alloc
      requires mbr.Valid()
    {
      Machine(DiskTheorems.World(drive.platter, mbr.Volumes()), mbr.Rest(), alloc.st, alloc.next, alloc.current,
              alloc.currentVol)
    }

    ghost predicate Valid()
      reads mbr, mbr.volumes, drive, alloc
    {
      mbr.Valid() && alloc.Valid(mbr, drive) && MachineInv(State())
    }

    /** What the machine does not say of the memory. */
    ghost predicate Backed()
      reads mbr, drive, alloc
    {
      && mbr.Valid() && drive.Valid() && !drive.counted
      && alloc.NodesRep(alloc.st.pos, alloc.st.live)
    }

    lemma Back()
      requires Valid()
      ensures Backed()
    {
      hide MachineInv, SuperblocSpec.WellFormed, DiskRep, PartInv;
    }

    lemma Nodes()
      requires alloc.Valid(mbr, drive)
      ensures drive.Valid() && !drive.counted && alloc.NodesRep(alloc.st.pos, alloc.st.live)
    {
      hide SuperblocSpec.WellFormed, DiskRep, PartInv;
    }

    lemma NowBacked()
      requires mbr.Valid() && drive.Valid() && !drive.counted && alloc.NodesRep(alloc.st.pos, alloc.st.live)
      ensures Backed()
    {
    }

    lemma StillValid()
      requires Backed() && MachineInv(State())
      ensures Valid()
    {
      var m := State();
      assert Entries(m) == mbr.volumes[..];
      hide SuperblocSpec.WellFormed, SuperblocTheorems.Inv, DiskRep, PartInv, FirstRep, Follows;
    }

    /** The history of the allocator is brought up to date. */
    method Settle(ghost u: Machine<N>)
      requires mbr.Valid() && State().(store := u.store) == u
      requires MachineInv(u) ==> drive.Valid() && !drive.counted && alloc.NodesRep(u.store.pos, u.store.live)
      modifies alloc`st
      ensures mbr.Valid() && State() == u && (Valid() <==> MachineInv(u))
    {
      hide MachineInv, Allocator.Valid;
      alloc.st := u.store;
      if MachineInv(u) {
        NowBacked();
        StillValid();
      }
    }

    constructor (mbr: Mbr, drive: Drive.Disk<Sector<N>>, alloc: Allocator<N>)
      ensures this.mbr == mbr && this.drive == drive && this.alloc == alloc
    {
      this.mbr, this.drive, this.alloc := mbr, drive, alloc;
    }

    // ---- Partitions -----------------------------------------------------------------------------

    method New(nbloc: int) returns (done: bool)
      requires Valid()
      modifies mbr, mbr.volumes, alloc
      ensures mbr.Valid() && State() == Session.Step(old(State()), NewPart(nbloc))
      ensures Valid() <==> Allowed(old(State()), NewPart(nbloc))
      ensures done <==> |old(State()).disk.table| < 8
      ensures |State().disk.table| == if done then |old(State()).disk.table| + 1 else 8
    {
      ghost var m, op := State(), Op<N>.NewPart(nbloc);
      Back();
      ghost var u := EditOp(m, op);
      hide MachineInv, Allowed, Session.Step, DiskRep, SuperblocSpec.WellFormed, PartInv, NewTable, NewRest;
      hide Sound, Start, FirstRep, Allocator.Valid, NextFree;
      done := mbr.New(nbloc);
      Settle(u);
    }

    /** With a negative number the loop writes outside the table: `ok` is false then. */
    method Del(vol: int) returns (ok: bool)
      requires Valid()
      modifies mbr, mbr.volumes, alloc
      ensures ok <==> old(State()).disk.table == [] || vol >= 0
      ensures ok ==>
                var op := DelPart(if vol >= 0 then vol else 0);
                && mbr.Valid() && State() == Session.Step(old(State()), op)
                && (Valid() <==> Allowed(old(State()), op))
    {
      ghost var m, op := State(), Op<N>.DelPart(if vol >= 0 then vol else 0);
      Back();
      ghost var u := EditOp(m, op);
      hide MachineInv, Allowed, Session.Step, DiskRep, SuperblocSpec.WellFormed, PartInv, DelTable, DelRest;
      hide Sound, Start, FirstRep, Allocator.Valid;
      ok := mbr.Del(vol);
      if ok {
        Settle(u);
      }
    }

    method Save()
      requires Valid()
      modifies drive
      ensures Valid() && State() == Session.Step(old(State()), SaveTable)
    {
      ghost var m := State();
      Back();
      ghost var u := KeepOp(m);
      assert mbr.volumes[..] == Entries(m);
      hide MachineInv, Session.Step, DiskRep, SuperblocSpec.WellFormed, PartInv;
      SaveMbr(mbr, drive);
      assert State() == u;
      StillValid();
    }

    // ---- Blocks ---------------------------------------------------------------------------------

    method WriteBlock(vol: nat, nbloc: nat, buffer: Sector<N>)
      requires Valid() && Possible(State(), Session.Write(vol, nbloc, buffer))
      modifies drive
      ensures mbr.Valid() && State() == Session.Step(old(State()), Session.Write(vol, nbloc, buffer))
      ensures Valid() <==> Allowed(old(State()), Session.Write(vol, nbloc, buffer))
    {
      ghost var m, op := State(), Op<N>.Write(vol, nbloc, buffer);
      Back();
      ghost var u := WriteOp(m, vol, nbloc, buffer);
      assert mbr.volumes[vol] == mbr.Volumes()[vol];
      hide MachineInv, Allowed, Possible, Session.Step, DiskRep, SuperblocSpec.WellFormed, PartInv;
      WriteBloc(mbr, drive, vol, nbloc, buffer);
      assert State() == u;
      if MachineInv(u) { StillValid(); }
    }

    method FormatVolume(vol: nat, value: bv32)
      requires Valid() && Possible(State(), Session.Format(vol, value))
      modifies drive, alloc
      ensures mbr.Valid() && State() == Session.Step(old(State()), Session.Format(vol, value))
      ensures Valid() <==> Allowed(old(State()), Session.Format(vol, value))
    {
      ghost var m := State();
      Back();
      ghost var u := FormatOp(m, vol, value);
      hide MachineInv, Possible, Allowed, Session.Step, DiskRep, SuperblocSpec.WellFormed, PartInv, Fill;
      FormatVol(mbr, drive, vol, value);
      Settle(u);
    }

    // ---- Free lists -----------------------------------------------------------------------------

    method LoadVolume(vol: nat, serial: int, got: seq<N>)
      requires Valid() && Possible(State(), LoadVol(vol, serial, got))
      modifies drive, alloc
      ensures mbr.Valid() && State() == Session.Step(old(State()), LoadVol(vol, serial, got))
      ensures Valid() <==> Allowed(old(State()), LoadVol(vol, serial, got))
    {
      ghost var m := State();
      Back();
      ghost var u := LoadOp(m, vol, serial, got);
      hide MachineInv, Allowed, Possible, Session.Step, DiskRep, SuperblocSpec.WellFormed, PartInv;
      hide PlatterLoaded, Enabled, FirstRep, LoadedState, GrowNext, Start, Top, Sound, Allocator.Valid, Backed;
      var r := alloc.LoadSuper(mbr, drive, vol, serial, got);
      if MachineInv(u) { Nodes(); }
      Settle(u);
    }

    /** With no superblock in memory a NULL pointer is followed. */
    method SaveVolume() returns (r: Superbloc.Result)
      requires Valid()
      modifies drive, alloc
      ensures r == Crashed <==> !Possible(old(State()), SaveVol)
      ensures r != Crashed ==> Valid() && State() == Session.Step(old(State()), SaveVol)
    {
      ghost var m := State();
      Back();
      if alloc.current == None {
        r := alloc.SaveSuper(mbr, drive);
      } else {
        ghost var u := SaveOp(m);
        assert Entries(m) == mbr.volumes[..];
        hide MachineInv, Possible, Session.Step, DiskRep, SuperblocSpec.WellFormed, PartInv, SuperblocSpec.SaveSuper;
        r := alloc.SaveSuper(mbr, drive);
        assert State() == u;
      }
    }

    method NewBlock() returns (number: int)
      requires Valid()
      modifies alloc
      ensures Valid() && State() == Session.Step(old(State()), NewVol)
      ensures SuperblocSpec.WellFormed(old(State()).store) && TakeBloc(old(State()).store).Done?
      ensures number == TakeBloc(old(State()).store).code
    {
      ghost var m := State();
      ghost var u := TakeOp(m);
      hide MachineInv, Session.Step, DiskRep, SuperblocSpec.WellFormed, PartInv, TakeBloc, SuperblocTheorems.Inv;
      var r := alloc.NewBloc(mbr, drive);
      number := r.code;
      assert State() == u;
    }

    method DelBlock(choice: nat, node: N) returns (result: int)
      requires Valid() && Possible(State(), DelVol(choice, node))
      modifies alloc
      ensures mbr.Valid() && State() == Session.Step(old(State()), DelVol(choice, node))
      ensures Valid() <==> Allowed(old(State()), DelVol(choice, node))
      ensures SuperblocSpec.WellFormed(old(State()).store) && node !in old(State()).store.pos
      ensures GiveBloc(old(State()).store, choice, node).Done?
      ensures result == GiveBloc(old(State()).store, choice, node).code
    {
      ghost var m := State();
      ghost var u := GiveOp(m, choice, node);
      hide MachineInv, Allowed, Possible, Session.Step, DiskRep, SuperblocSpec.WellFormed, PartInv, GiveBloc;
      var r := alloc.FreeBloc(mbr, drive, choice, node);
      result := r.code;
      assert State() == u;
    }
  }

  // ---- What the commands need to know -----------------------------------------------------------

  lemma EditOp<N>(m: Machine<N>, op: Op<N>) returns (u: Machine<N>)
    requires MachineInv(m) && (op.NewPart? || op.DelPart?)
    ensures Possible(m, op) && u == Session.Step(m, op) && (MachineInv(u) <==> Allowed(m, op))
    ensures u.disk == DiskTheorems.World(m.disk.platter, u.disk.table)
    ensures u.next == m.next && u.current == m.current && u.currentVol == m.currentVol
    ensures u.disk.platter == m.disk.platter && |m.disk.table| + |m.rest| == MAX_VOLUMES
    ensures u.disk.table == (if op.NewPart? then NewTable(m.disk.table, op.n) else DelTable(m.disk.table, op.v))
    ensures u.rest == (if op.NewPart? then NewRest(m.disk.table, m.rest) else DelRest(m.disk.table, m.rest))
    ensures u.store.pos == m.store.pos && u.store.live == m.store.live
  {
    Session.StepExact(m, op);
    u := Session.Step(m, op);
    hide SuperblocTheorems.Inv, SuperblocSpec.WellFormed, DiskRep, PartInv, Follows, Allowed;
  }

  lemma KeepOp<N>(m: Machine<N>) returns (u: Machine<N>)
    requires MachineInv(m)
    ensures Possible(m, SaveTable) && u == Session.Step(m, SaveTable) && MachineInv(u)
    ensures |m.disk.platter| == HDA_SECTORS && |m.disk.table| + |m.rest| == MAX_VOLUMES
    ensures u == m.(disk := m.disk.(platter := m.disk.platter[0 := MbrImage(|m.disk.table|, Entries(m))]))
  {
    Session.StepExact(m, SaveTable);
    u := Session.Step(m, SaveTable);
    hide SuperblocTheorems.Inv, SuperblocSpec.WellFormed, DiskRep, PartInv, Follows;
  }

  lemma WriteOp<N>(m: Machine<N>, v: nat, b: nat, x: Sector<N>) returns (u: Machine<N>)
    requires MachineInv(m) && Possible(m, Session.Write(v, b, x))
    ensures u == Session.Step(m, Session.Write(v, b, x)) && (MachineInv(u) <==> Allowed(m, Session.Write(v, b, x)))
    ensures v < |m.disk.table| <= MAX_VOLUMES && m.disk.table[v].debutSect >= 0
    ensures 0 <= Start(m.disk.table[v]) + b < HDA_SECTORS == |m.disk.platter|
    ensures u == m.(disk := m.disk.(platter := m.disk.platter[Start(m.disk.table[v]) + b := x]))
  {
    FirstBlock(m, v);
    Session.StepExact(m, Session.Write(v, b, x));
    u := Session.Step(m, Session.Write(v, b, x));
    hide SuperblocTheorems.Inv, SuperblocSpec.WellFormed, DiskRep, Follows, Allowed;
  }

  lemma FormatOp<N>(m: Machine<N>, v: nat, value: bv32) returns (u: Machine<N>)
    requires MachineInv(m) && Possible(m, Session.Format(v, value))
    ensures u == Session.Step(m, Session.Format(v, value)) && v < |m.disk.table|
    ensures MachineInv(u) <==> Allowed(m, Session.Format(v, value))
    ensures 0 <= Start(m.disk.table[v]) && 0 <= m.disk.table[v].nbBlocs && End(m.disk.table[v]) <= |m.disk.platter|
    ensures u == m.(store := u.store,
                    disk := m.disk.(platter := Fill(m.disk.platter, Start(m.disk.table[v]), m.disk.table[v].nbBlocs,
                                                    Filled(value))))
    ensures u.store.pos == m.store.pos && u.store.live == m.store.live
  {
    FirstBlock(m, v);
    Session.StepExact(m, Session.Format(v, value));
    u := Session.Step(m, Session.Format(v, value));
    hide SuperblocTheorems.Inv, SuperblocSpec.WellFormed, DiskRep, Follows, Fill;
  }

  lemma LoadOp<N>(m: Machine<N>, v: nat, serial: int, got: seq<N>) returns (u: Machine<N>)
    requires MachineInv(m) && Possible(m, LoadVol(v, serial, got))
    ensures SuperblocSpec.WellFormed(m.store) && Enabled(m.store, Load(v, got)) && v < |m.store.saved|
    ensures v < |m.store.sizes| && v < |m.disk.table| && 0 <= Start(m.disk.table[v]) < |m.disk.platter|
    ensures m.store.saved[v].None? ==> Start(m.disk.table[v]) + |got| < HDA_SECTORS
    ensures u == Session.Step(m, LoadVol(v, serial, got))
    ensures MachineInv(u) <==> Allowed(m, LoadVol(v, serial, got))
    ensures MachineInv(u) ==> m.store.saved[v].None? ==> m.store.sizes[v] >= 2
    ensures u.disk.table == m.disk.table && u.rest == m.rest && u.currentVol == v
    ensures u.store.pos == LoadedState(m.store, v, got).pos && u.store.live == LoadedState(m.store, v, got).live
    ensures u.disk.platter == PlatterLoaded(m.disk.platter, m.disk.table, v, m.store.saved, serial, got)
    ensures m.store.saved[v].None? ==>
              u.next == GrowNext(m.next, got, |got|) && u.current == Some(Superblock(serial, Top(got)))
    ensures m.store.saved[v].Some? ==>
              && u.next == m.next && u.disk.platter == m.disk.platter
              && var x := m.disk.platter[Start(m.disk.table[v])];
                HasMagic(x) && u.current == Some(Superblock(SerialField(x), FirstField(x)))
  {
    FirstBlock(m, v);
    Session.StepExact(m, LoadVol(v, serial, got));
    LoadAnew(m.store, v, got);
    u := Session.Step(m, LoadVol(v, serial, got));
    hide SuperblocTheorems.Inv, DiskRep, FirstRep, PartInv, Follows;
  }

  lemma SaveOp<N>(m: Machine<N>) returns (u: Machine<N>)
    requires MachineInv(m) && m.current.Some?
    ensures Possible(m, SaveVol) && u == Session.Step(m, SaveVol) && MachineInv(u)
    ensures SuperblocSpec.WellFormed(m.store) && m.store.loaded.Some?
    ensures m.currentVol < |Entries(m)| == MAX_VOLUMES && Entries(m)[m.currentVol].debutSect >= 0
    ensures 0 <= Start(Entries(m)[m.currentVol]) < |m.disk.platter| == HDA_SECTORS
    ensures SuperblocSpec.SaveSuper(m.store) == Done(0, u.store)
    ensures u == m.(disk := m.disk.(platter := PutBack(m)), store := u.store, current := None)
  {
    InMemory(m);
    FirstBlock(m, m.store.loaded.value.0);
    Session.StepExact(m, SaveVol);
    u := Session.Step(m, SaveVol);
    hide SuperblocTheorems.Inv, DiskRep, FirstRep, Follows;
  }

  lemma TakeOp<N>(m: Machine<N>) returns (u: Machine<N>)
    requires MachineInv(m)
    ensures Possible(m, NewVol) && u == Session.Step(m, NewVol) && MachineInv(u)
    ensures SuperblocSpec.WellFormed(m.store) && TakeBloc(m.store).Done? && TakeBloc(m.store).s == u.store
    ensures u == m.(store := u.store, current := u.current)
    ensures m.current.None? || m.current.value.first.Null? ==> u.current == m.current
    ensures m.current.Some? && m.current.value.first.To? && m.current.value.first.p in m.next ==>
              u.current == Some(m.current.value.(first := m.next[m.current.value.first.p]))
  {
    SuperblocTheorems.CodesExact(m.store, NewBloc);
    Session.StepExact(m, NewVol);
    u := Session.Step(m, NewVol);
    if m.store.loaded.Some? { InMemory(m); }
    hide SuperblocTheorems.Inv, DiskRep, Follows;
  }

  lemma GiveOp<N>(m: Machine<N>, b: nat, node: N) returns (u: Machine<N>)
    requires MachineInv(m) && Possible(m, DelVol(b, node))
    ensures u == Session.Step(m, DelVol(b, node)) && (MachineInv(u) <==> Allowed(m, DelVol(b, node)))
    ensures SuperblocSpec.WellFormed(m.store) && node !in m.store.pos && GiveBloc(m.store, b, node).Done?
    ensures GiveBloc(m.store, b, node).s == u.store
    ensures u == m.(store := u.store, next := u.next, current := u.current)
    ensures GiveBloc(m.store, b, node).code != 1 ==> u.next == m.next && u.current == m.current
    ensures GiveBloc(m.store, b, node).code == 1 ==>
              && m.current.Some? && u.next == m.next[node := Null][node := m.current.value.first]
              && u.current == Some(m.current.value.(first := To(node)))
  {
    GiveStoreExact(m.store, b, node);
    Session.StepExact(m, DelVol(b, node));
    u := Session.Step(m, DelVol(b, node));
    if m.store.loaded.Some? { InMemory(m); }
    hide SuperblocTheorems.Inv, DiskRep, Follows;
  }
}

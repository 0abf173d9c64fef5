/** src/includes/volume.c, and the commands `new` and `del` of src/vm/vm.c, which edit the same table. */
module Volume {
  import opened Drive
  import opened Partition

  /** What a sector holds. Structures are stored as such instead of as their bytes; `P` is the type of the
      pointers found in them. For bytes that are no structure, `serial` and `first` are what bytes 4 to 7 and 40
      to 47 say, read as an int and as a pointer. */
  datatype Sector<+P> =
    | Bytes(data: seq<bv8>, serial: int, first: Pointer<P>)
    | Filled(value: bv32)
    | MbrImage(nbVolume: nat, volumes: seq<Vol>)
    | SuperImage(serial: int, first: Pointer<P>)
    | NodeImage(posBloc: nat, next: Pointer<P>)

  /** A pointer that was never assigned, or is no pointer, is Wild. */
  datatype Pointer<+P> = Wild | Null | To(p: P)

  // What load_super makes of a sector, whatever was written there: it reads it as a superblock.

  const MAGIC: nat := 0xDEADBEEF

  /** The format value that reads as MAGIC: the disk gets its bytes from the highest to the lowest, and an int is
      read from the lowest. */
  const FILL_MAGIC: bv32 := 0xEFBEADDE

  /** The first four bytes are the magic number. List nodes begin with it as superblocks do. */
  predicate HasMagic<P>(x: Sector<P>) {
    match x
    case Bytes(data, _, _) => |data| >= 4 && data[..4] == [0xEF, 0xBE, 0xAD, 0xDE]
    case Filled(value) => value == FILL_MAGIC
    case MbrImage(nbVolume, _) => nbVolume == MAGIC
    case SuperImage(_, _) => true
    case NodeImage(_, _) => true
  }

  /** The unsigned int of four bytes, the lowest first. */
  function FromBytes(a: bv8, b: bv8, c: bv8, d: bv8): nat {
    a as nat + 256 * b as nat + 65536 * c as nat + 16777216 * d as nat
  }

  lemma FourBytes(a: nat, b: nat, c: nat, d: nat)
    requires a < 256 && b < 256 && c < 256 && d < 256
    ensures a + 256 * b + 65536 * c + 16777216 * d == 0xDEADBEEF <==> a == 0xEF && b == 0xBE && c == 0xAD && d == 0xDE
  {
  }

  /** Bytes have the magic number exactly when the first four, the lowest first, read as 0xDEADBEEF. */
  lemma BytesMagic<P>(data: seq<bv8>, serial: int, first: Pointer<P>)
    requires |data| >= 4
    ensures HasMagic(Bytes(data, serial, first)) <==>
            FromBytes(data[0], data[1], data[2], data[3]) == 0xDEADBEEF
  {
    FourBytes(data[0] as nat, data[1] as nat, data[2] as nat, data[3] as nat);
    assert data[..4] == [data[0], data[1], data[2], data[3]];
  }

  /** A format has it when the four bytes of the value do, the highest being written first. */
  lemma FilledMagic<P>(value: bv32, data: seq<bv8>, serial: int, first: Pointer<P>)
    requires |data| >= 4 && data[0] as bv32 == value >> 24 && data[1] as bv32 == (value >> 16) & 0xFF
    requires data[2] as bv32 == (value >> 8) & 0xFF && data[3] as bv32 == value & 0xFF
    ensures HasMagic(Sector<P>.Filled(value)) <==> HasMagic(Bytes(data, serial, first))
  {
    assert data[..4] == [data[0], data[1], data[2], data[3]];
  }

  /** The field `first`. Behind a node it is that of the superblock written before from the same buffer, which
      was not assigned yet. */
  function FirstField<P>(x: Sector<P>): Pointer<P> {
    match x
    case Bytes(_, _, first) => first
    case SuperImage(_, first) => first
    case _ => Wild
  }

  function TypeCode(kind: VolType): int {
    match kind
    case BASE => 0
    case ANNEXE => 1
    case OTHER => 2
    case UNUSED => 3
  }

  /** The field `serial`: behind the magic number of a node there is its block, behind the number of volumes the
      type of the first one. */
  function SerialField<P>(x: Sector<P>): int {
    match x
    case Bytes(_, serial, _) => serial
    case Filled(_) => MAGIC - 0x1_0000_0000
    case MbrImage(_, volumes) => if volumes == [] then 0 else TypeCode(volumes[0].kind)
    case SuperImage(serial, _) => serial
    case NodeImage(posBloc, _) => posBloc
  }

  /** mbr_s: eight entries, the first nb_volume of which are volumes. */
  class Mbr {
    var nbVolume: nat
    var volumes: array<Vol>

    ghost predicate Valid()
      reads this
    {
      volumes.Length == MAX_VOLUMES && nbVolume <= MAX_VOLUMES
    }

    function Volumes(): Table
      reads this, volumes
      requires Valid()
    {
      volumes[..nbVolume]
    }

    /** The entries that are no volumes. */
    function Rest(): seq<Vol>
      reads this, volumes
      requires Valid()
    {
      volumes[nbVolume..]
    }

    /** The content of the MBR sector that save_mbr would write. */
    function Image<P>(): Sector<P>
      reads this, volumes
    {
      MbrImage(nbVolume, volumes[..])
    }

    constructor ()
      ensures Valid() && fresh(volumes) && Volumes() == []
    {
      nbVolume := 0;
      volumes := new Vol[MAX_VOLUMES](_ => Vol(UNUSED, 0, 0, 0));
    }

    // ---- Commands of vm.c -----------------------------------------------------------------------

    method New(nbloc: int) returns (done: bool)
      requires Valid()
      modifies this, volumes
      ensures Valid() && volumes == old(volumes) && volumes.Length == 8
      ensures done <==> old(nbVolume) < 8
      ensures nbVolume == if done then old(nbVolume) + 1 else 8
      ensures Volumes() == NewTable(old(Volumes()), nbloc)
      ensures Rest() == NewRest(old(Volumes()), old(Rest()))
    {
      if nbVolume >= MAX_VOLUMES {
        return false;
      }
      var cylSect: (int, int);
      if nbVolume != 0 {
        var lastPart := volumes[nbVolume - 1];
        cylSect := CytToSect(lastPart, lastPart.nbBlocs);
      } else {
        cylSect := (0, 1);
      }
      volumes[nbVolume] := Vol(BASE, cylSect.0, cylSect.1, nbloc);
      nbVolume := nbVolume + 1;
      return true;
    }

    /** A negative index makes the loop write below the first entry: `ok` is false then. With no volume
        the command gives up. */
    method Del(chosen: int) returns (ok: bool)
      requires Valid()
      modifies this, volumes
      ensures volumes == old(volumes)
      ensures ok <==> old(nbVolume) == 0 || chosen >= 0
      ensures ok ==>
                && Valid() && Volumes() == DelTable(old(Volumes()), if chosen >= 0 then chosen else 0)
                && Rest() == DelRest(old(Volumes()), old(Rest()))
    {
      if nbVolume == 0 {
        return true;
      }
      ghost var t, rest := Volumes(), Rest();
      var vol := chosen + 1;
      while vol < nbVolume
        invariant chosen < vol
        invariant chosen >= 0 ==> vol <= nbVolume || vol == chosen + 1
        invariant chosen < 0 ==> vol == chosen + 1
        invariant Valid() && |t| == nbVolume == old(nbVolume) && volumes == old(volumes)
        invariant forall i :: 0 <= i < nbVolume ==>
          volumes[i] == if chosen <= i < vol - 1 then Next(t, i) else t[i]
        invariant volumes[nbVolume..] == rest
        decreases nbVolume - vol
      {
        if vol - 1 < 0 {
          return false;
        }
        volumes[vol - 1] := volumes[vol];
        vol := vol + 1;
      }
      nbVolume := nbVolume - 1;
      assert Volumes() == DelTable(t, chosen);
      assert Rest() == [volumes[nbVolume]] + rest;
      return true;
    }
  }

  /** The entry after `i`. */
  function Next(t: Table, i: nat): Vol
    requires i + 1 < |t|
  {
    t[i + 1]
  }

  // ---- volume.c ---------------------------------------------------------------------------------

  /** The disk and the table in use: a disk that moves one sector per command. */
  ghost predicate Ready<P>(mbr: Mbr, drive: Disk<Sector<P>>)
    reads mbr, mbr.volumes, drive
  {
    mbr.Valid() && PartInv(mbr.Volumes()) && drive.Valid() && !drive.counted
  }

  predicate IsTable<P>(x: Sector<P>) {
    x.MbrImage? && |x.volumes| == MAX_VOLUMES
  }

  /** load_mbr. `otherwise` is what the bytes of a sector that was not written as a table mean when they are
      read as one. A disk that obeys the count, which is 0 here, leaves what MASTERBUFFER held. */
  method LoadMbr<P>(mbr: Mbr, drive: Disk<Sector<P>>, otherwise: (nat, seq<Vol>))
    requires drive.Valid() && mbr.volumes.Length == MAX_VOLUMES && |otherwise.1| == MAX_VOLUMES
    modifies mbr`nbVolume, mbr.volumes, drive`cyl, drive`sect, drive`masterBuffer
    ensures drive.Valid()
    ensures var x := if drive.counted then old(drive.masterBuffer[0]) else drive.platter[0];
            && (IsTable(x) ==> mbr.Image() == x && (x.nbVolume <= MAX_VOLUMES ==> mbr.Valid()))
            && (!IsTable(x) ==> mbr.nbVolume == otherwise.0 && mbr.volumes[..] == otherwise.1)
  {
    var buffer := drive.ReadSector(0, 0);
    var volumes := if IsTable(buffer) then buffer.volumes else otherwise.1;
    mbr.nbVolume := if IsTable(buffer) then buffer.nbVolume else otherwise.0;
    forall i | 0 <= i < MAX_VOLUMES {
      mbr.volumes[i] := volumes[i];
    }
    assert mbr.volumes[..] == volumes;
  }

  /** save_mbr. A disk that obeys the count writes nothing. */
  method SaveMbr<P>(mbr: Mbr, drive: Disk<Sector<P>>)
    requires mbr.Valid() && drive.Valid()
    modifies drive`cyl, drive`sect, drive`masterBuffer, drive`platter
    ensures drive.Valid()
    ensures drive.platter == if drive.counted then old(drive.platter) else old(drive.platter)[0 := mbr.Image()]
  {
    drive.WriteSector(0, 0, mbr.Image());
    BurstNone(old(drive.platter), 0, drive.masterBuffer);
  }

  /** No check is made that the block belongs to the volume: the disk only asks for an address it has. */
  method ReadBloc<P>(mbr: Mbr, drive: Disk<Sector<P>>, vol: nat, nbloc: nat) returns (buffer: Sector<P>)
    requires Ready(mbr, drive) && vol < |mbr.Volumes()| && Start(mbr.Volumes()[vol]) + nbloc < HDA_SECTORS
    modifies drive`cyl, drive`sect, drive`masterBuffer
    ensures Ready(mbr, drive) && buffer == drive.platter[Start(mbr.Volumes()[vol]) + nbloc]
  {
    assert Sound(mbr.Volumes()[vol]);
    CytToSectExact(mbr.volumes[vol], nbloc);
    var cylSect := CytToSect(mbr.volumes[vol], nbloc);
    buffer := drive.ReadSector(cylSect.0, cylSect.1);
  }

  /** The number may also be that of an entry beyond the table. */
  method WriteBloc<P>(mbr: Mbr, drive: Disk<Sector<P>>, vol: nat, nbloc: nat, buffer: Sector<P>)
    requires Ready(mbr, drive) && vol < MAX_VOLUMES && mbr.volumes[vol].debutSect >= 0
    requires 0 <= Start(mbr.volumes[vol]) + nbloc < HDA_SECTORS
    modifies drive`cyl, drive`sect, drive`masterBuffer, drive`platter
    ensures Ready(mbr, drive)
    ensures drive.platter == old(drive.platter)[Start(mbr.volumes[vol]) + nbloc := buffer]
  {
    CytToSectExact(mbr.volumes[vol], nbloc);
    var cylSect := CytToSect(mbr.volumes[vol], nbloc);
    drive.WriteSector(cylSect.0, cylSect.1, buffer);
  }

  method FormatVol<P>(mbr: Mbr, drive: Disk<Sector<P>>, vol: nat, value: bv32)
    requires Ready(mbr, drive) && vol < |mbr.Volumes()|
    modifies drive`cyl, drive`sect, drive`platter, drive`formatted
    ensures Ready(mbr, drive)
    ensures var v := mbr.Volumes()[vol];
            && drive.platter == Fill(old(drive.platter), Start(v), v.nbBlocs, Filled(value))
            && drive.formatted == old(drive.formatted) + Visits(v.debutCyl, v.debutSect, v.nbBlocs)
  {
    var volume := mbr.volumes[vol];
    assert Sound(mbr.Volumes()[vol]);
    drive.FormatSector(volume.debutCyl, volume.debutSect, volume.nbBlocs, Filled(value));
  }
}

/** src/includes/drive.c over a model of the simulated disk.

    The hardware library is not part of this model. Its disk is taken to hold 16 x 16 sectors of contents
    `T`; a seek selects one; a format command fills the selected one; a read or a write command moves
    sectors between the selected one and MASTERBUFFER. How many it moves is a parameter: `counted` says
    whether the command obeys the count left in the data registers or always moves one sector. A format
    command on an address the disk does not have does nothing. */
module Drive {
  const HDA_MAXCYLINDER := 16
  const HDA_MAXSECTOR := 16
  const HDA_SECTORS := 256

  function Linear(cyl: nat, sect: nat): nat {
    cyl * HDA_MAXSECTOR + sect
  }

  predicate OnDisk(cyl: nat, sect: nat) {
    cyl < HDA_MAXCYLINDER && sect < HDA_MAXSECTOR
  }

  // ---- What the commands do to the sectors ------------------------------------------------------

  /** `buffer[..n]` written from sector `at` on, as far as the disk goes. */
  function Burst<T>(platter: seq<T>, at: nat, buffer: seq<T>, n: nat): (r: seq<T>)
    requires at < |platter| && n <= |buffer|
    ensures |r| == |platter|
    ensures forall i :: 0 <= i < |r| ==>
              r[i] == if at <= i < at + n then buffer[i - at] else platter[i]
  {
    var m := if at + n <= |platter| then n else |platter| - at;
    platter[..at] + buffer[..m] + platter[at + m..]
  }

  /** `n` sectors holding `fill` from sector `at` on. */
  function Fill<T>(platter: seq<T>, at: nat, n: nat, fill: T): (r: seq<T>)
    requires at + n <= |platter|
    ensures |r| == |platter|
    ensures forall i :: 0 <= i < |r| ==> r[i] == if at <= i < at + n then fill else platter[i]
  {
    platter[..at] + seq(n, _ => fill) + platter[at + n..]
  }

  /** The addresses format_sector visits, by its wrap-around counters. */
  function Visits(cyl: nat, sect: nat, n: nat): seq<(nat, nat)>
    decreases n
  {
    if n == 0 then []
    else
      var (cyl', sect') := NextSector(cyl, sect);
      [(cyl, sect)] + Visits(cyl', sect', n - 1)
  }

  /** The counters after one turn of the loop: the next sector of the disk. */
  function NextSector(cyl: nat, sect: nat): (r: (nat, nat))
    ensures sect < HDA_MAXSECTOR ==> r.1 < HDA_MAXSECTOR && Linear(r.0, r.1) == Linear(cyl, sect) + 1
  {
    var sect' := (sect + 1) % HDA_MAXSECTOR;
    (if sect' == 0 then cyl + 1 else cyl, sect')
  }

  /** `fill` on the sectors of `visits` that the disk has. */
  function FillAt<T>(platter: seq<T>, visits: seq<(nat, nat)>, fill: T): (r: seq<T>)
    requires |platter| == HDA_SECTORS
    ensures |r| == |platter|
  {
    if visits == [] then platter
    else FillSector(FillAt(platter, visits[..|visits| - 1], fill), visits[|visits| - 1], fill)
  }

  function FillSector<T>(platter: seq<T>, at: (nat, nat), fill: T): (r: seq<T>)
    requires |platter| == HDA_SECTORS
    ensures |r| == |platter|
  {
    if OnDisk(at.0, at.1) then platter[Linear(at.0, at.1) := fill] else platter
  }

  lemma FillMore<T>(platter: seq<T>, visits: seq<(nat, nat)>, at: (nat, nat), fill: T)
    requires |platter| == HDA_SECTORS
    ensures FillAt(platter, visits + [at], fill) == FillSector(FillAt(platter, visits, fill), at, fill)
  {
    assert (visits + [at])[..|visits|] == visits;
  }

  /** The walk from a sector of the disk that ends on it fills one stretch. */
  lemma {:induction false} FillStretch<T>(platter: seq<T>, cyl: nat, sect: nat, n: nat, fill: T)
    requires |platter| == HDA_SECTORS && sect < HDA_MAXSECTOR && Linear(cyl, sect) + n <= HDA_SECTORS
    ensures FillAt(platter, Visits(cyl, sect, n), fill) == Fill(platter, Linear(cyl, sect), n, fill)
  {
    if n > 0 {
      FillStretch(platter, cyl, sect, n - 1, fill);
      var last := VisitLast(cyl, sect, n);
      FillMore(platter, Visits(cyl, sect, n - 1), last, fill);
      FillOne(platter, Linear(cyl, sect), n - 1, fill);
    }
  }

  /** The last address of a walk. */
  lemma {:induction false} VisitLast(cyl: nat, sect: nat, n: nat) returns (last: (nat, nat))
    requires n > 0 && sect < HDA_MAXSECTOR
    ensures Visits(cyl, sect, n) == Visits(cyl, sect, n - 1) + [last]
    ensures last.1 < HDA_MAXSECTOR && Linear(last.0, last.1) == Linear(cyl, sect) + n - 1
    decreases n
  {
    if n == 1 {
      last := (cyl, sect);
    } else {
      var (cyl', sect') := NextSector(cyl, sect);
      last := VisitLast(cyl', sect', n - 1);
      assert Visits(cyl, sect, n) == [(cyl, sect)] + (Visits(cyl', sect', n - 2) + [last]);
    }
  }

  lemma FillOne<T>(platter: seq<T>, at: nat, i: nat, fill: T)
    requires at + i < |platter|
    ensures Fill(platter, at, i, fill)[at + i := fill] == Fill(platter, at, i + 1, fill)
  {
  }

  lemma NoVisit(log: seq<(nat, nat)>, cyl: nat, sect: nat)
    ensures log + Visits(cyl, sect, 0) == log
  {
  }

  lemma VisitOne(log: seq<(nat, nat)>, cyl: nat, sect: nat, n: nat)
    requires n > 0
    ensures var (cyl', sect') := NextSector(cyl, sect);
            log + Visits(cyl, sect, n) == log + [(cyl, sect)] + Visits(cyl', sect', n - 1)
  {
  }

  /** On a disk that obeys the count, the driver leaves the sector index there. Whatever the disk and
      MASTERBUFFER hold, one sector is written, the one addressed, exactly when that index is 1 or the sector
      is the last one of the disk. With index 0 nothing is written. */
  lemma CountedWriteExact<T>(at: nat, x: T, y: T)
    requires at < HDA_SECTORS && x != y
    ensures (forall platter: seq<T>, buffer: seq<T> | |platter| == HDA_SECTORS && |buffer| == HDA_MAXSECTOR ::
               OneSector(platter, at, buffer)) <==>
            at % 16 == 1 || at == 255
    ensures at % 16 == 0 ==>
              forall platter: seq<T>, buffer: seq<T> | |platter| == HDA_SECTORS && |buffer| == HDA_MAXSECTOR ::
                Burst(platter, at, buffer, at % 16) == platter
  {
    var n := at % HDA_MAXSECTOR;
    if n != 1 && at != HDA_SECTORS - 1 {
      var platter := seq(HDA_SECTORS, _ => x);
      var buffer := seq(HDA_MAXSECTOR, _ => y);
      var r := Burst(platter, at, buffer, n);
      assert n == 0 ==> r[at] == x;
      assert n > 1 ==> r[at + 1] == y;
      assert !OneSector(platter, at, buffer);
    }
  }

  /** The write command does what the driver means. */
  predicate OneSector<T(==)>(platter: seq<T>, at: nat, buffer: seq<T>)
    requires at < |platter| && |buffer| == HDA_MAXSECTOR
  {
    Burst(platter, at, buffer, at % HDA_MAXSECTOR) == platter[at := buffer[0]]
  }

  lemma BurstNone<T>(platter: seq<T>, at: nat, buffer: seq<T>)
    requires at < |platter|
    ensures Burst(platter, at, buffer, 0) == platter
  {
  }

  lemma BurstSingle<T>(platter: seq<T>, at: nat, buffer: seq<T>)
    requires at < |platter| && buffer != []
    ensures Burst(platter, at, buffer, 1) == platter[at := buffer[0]]
  {
  }

  // ---- The device and its driver ----------------------------------------------------------------

  class Disk<T> {
    const counted: bool
    var platter: seq<T>
    var cyl: nat
    var sect: nat
    var masterBuffer: seq<T>

    /** The addresses given to the format command so far. */
    ghost var formatted: seq<(nat, nat)>

    ghost predicate Valid()
      reads this
    {
      |platter| == HDA_SECTORS && |masterBuffer| == HDA_MAXSECTOR
    }

    constructor (counted: bool, platter: seq<T>, masterBuffer: seq<T>)
      requires |platter| == HDA_SECTORS && |masterBuffer| == HDA_MAXSECTOR
      ensures Valid() && this.counted == counted && this.platter == platter && formatted == []
    {
      this.counted, this.platter, this.masterBuffer := counted, platter, masterBuffer;
      cyl, sect, formatted := 0, 0, [];
    }

    /** How many sectors a read or write command moves when the count register holds `n`. */
    function Moved(n: nat): nat {
      if counted then n else 1
    }

    method DoSeek(cyl: nat, sect: nat)
      requires Valid()
      modifies this`cyl, this`sect
      ensures Valid() && this.cyl == cyl && this.sect == sect
    {
      this.cyl, this.sect := cyl, sect;
    }

    method DoRead(nbSec: nat)
      requires Valid() && OnDisk(cyl, sect) && nbSec < HDA_MAXSECTOR
      modifies this`masterBuffer
      ensures Valid()
      ensures masterBuffer[0] == if Moved(nbSec) == 0 then old(masterBuffer[0]) else platter[Linear(cyl, sect)]
    {
      var at := Linear(cyl, sect);
      var n := if at + Moved(nbSec) <= HDA_SECTORS then Moved(nbSec) else HDA_SECTORS - at;
      masterBuffer := platter[at..at + n] + masterBuffer[n..];
    }

    method DoWrite(nbSec: nat)
      requires Valid() && OnDisk(cyl, sect) && nbSec < HDA_MAXSECTOR
      modifies this`platter
      ensures Valid() && platter == Burst(old(platter), Linear(cyl, sect), masterBuffer, Moved(nbSec))
    {
      platter := Burst(platter, Linear(cyl, sect), masterBuffer, Moved(nbSec));
    }

    /** The sector index is also what goes to the count register. */
    method ReadSector(ncyl: nat, nsect: nat) returns (buffer: T)
      requires Valid() && OnDisk(ncyl, nsect)
      modifies this`cyl, this`sect, this`masterBuffer
      ensures Valid()
      ensures buffer == if Moved(nsect) == 0 then old(masterBuffer[0]) else platter[Linear(ncyl, nsect)]
    {
      DoSeek(ncyl, nsect);
      DoRead(nsect);
      buffer := masterBuffer[0];
    }

    method WriteSector(ncyl: nat, nsect: nat, buffer: T)
      requires Valid() && OnDisk(ncyl, nsect)
      modifies this`cyl, this`sect, this`masterBuffer, this`platter
      ensures Valid()
      ensures masterBuffer == old(masterBuffer)[0 := buffer]
      ensures platter == Burst(old(platter), Linear(ncyl, nsect), masterBuffer, Moved(nsect))
      ensures !counted ==> platter == old(platter)[Linear(ncyl, nsect) := buffer]
    {
      DoSeek(ncyl, nsect);
      masterBuffer := masterBuffer[0 := buffer];
      DoWrite(nsect);
      if !counted {
        BurstSingle(old(platter), Linear(ncyl, nsect), masterBuffer);
      }
    }

    method FormatSector(cylinder: nat, sector: nat, nsector: nat, value: T)
      requires Valid()
      modifies this`cyl, this`sect, this`platter, this`formatted
      ensures Valid()
      ensures formatted == old(formatted) + Visits(cylinder, sector, nsector)
      ensures platter == FillAt(old(platter), Visits(cylinder, sector, nsector), value)
      ensures sector < HDA_MAXSECTOR && Linear(cylinder, sector) + nsector <= HDA_SECTORS ==>
                platter == Fill(old(platter), Linear(cylinder, sector), nsector, value)
    {
      var newsect: nat := sector;
      var newcyl: nat := cylinder;
      ghost var done := [];
      assert FillAt(platter, [], value) == platter;
      hide FillAt, Visits;
      NoVisit(done, newcyl, newsect);
      for i := 0 to nsector
        invariant Valid()
        invariant platter == FillAt(old(platter), done, value) && formatted == old(formatted) + done
        invariant done + Visits(newcyl, newsect, nsector - i) == Visits(cylinder, sector, nsector)
      {
        VisitOne(done, newcyl, newsect, nsector - i);
        DoSeek(newcyl, newsect);
        FillMore(old(platter), done, (cyl, sect), value);
        if OnDisk(cyl, sect) {                     // CMD_FORMAT with count 1
          platter := platter[Linear(cyl, sect) := value];
        }
        formatted := formatted + [(cyl, sect)];
        done := done + [(cyl, sect)];
        newsect := (newsect + 1) % HDA_MAXSECTOR;
        newcyl := if newsect == 0 then newcyl + 1 else newcyl;
        assert (newcyl, newsect) == NextSector(cyl, sect);
      }
      NoVisit(done, newcyl, newsect);
      if sector < HDA_MAXSECTOR && Linear(cylinder, sector) + nsector <= HDA_SECTORS {
        FillStretch(old(platter), cylinder, sector, nsector, value);
      }
    }
  }
}

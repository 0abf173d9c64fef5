/** The partition table of src/includes/volume.h as a value: block addressing (src/includes/volume.c) and
    the edits made by the commands `new` and `del` (src/vm/vm.c). */
module Partition {
  import opened Drive

  datatype VolType = BASE | ANNEXE | OTHER | UNUSED

  datatype Vol = Vol(kind: VolType, debutCyl: int, debutSect: int, nbBlocs: int)

  const MAX_VOLUMES := 8

  /** The first nb_volume entries of the table. */
  type Table = seq<Vol>

  // ---- Addressing -------------------------------------------------------------------------------

  function CytToSect(v: Vol, nbloc: int): (int, int) {
    var sect := v.debutSect + nbloc;
    if sect >= HDA_MAXSECTOR then (v.debutCyl + sect / HDA_MAXSECTOR, sect % HDA_MAXSECTOR)
    else (v.debutCyl, sect)
  }

  /** Position on the disk, counted in sectors, of the first block and of the end. */
  function Start(v: Vol): int {
    v.debutCyl * HDA_MAXSECTOR + v.debutSect
  }

  function End(v: Vol): int {
    Start(v) + v.nbBlocs
  }

  /** From a non-negative start, a block address is the cylinder and the sector of the position `nbloc`
      sectors further. */
  lemma CytToSectExact(v: Vol, nbloc: nat)
    requires v.debutSect >= 0
    ensures var (c, s) := CytToSect(v, nbloc);
            0 <= s < 16 && 16 * c + s == Start(v) + nbloc == 16 * v.debutCyl + v.debutSect + nbloc
  {
  }

  // ---- The invariant of the table ---------------------------------------------------------------

  /** A volume that starts after sector (0,0), which holds the table, and ends on the disk. */
  predicate Sound(v: Vol) {
    && v.debutCyl >= 0 && 0 <= v.debutSect < HDA_MAXSECTOR && v.nbBlocs >= 1
    && Start(v) >= 1 && End(v) <= HDA_SECTORS
  }

  predicate Ordered(t: Table) {
    forall i, j :: 0 <= i < j < |t| ==> End(t[i]) <= Start(t[j])
  }

  predicate PartInv(t: Table) {
    |t| <= MAX_VOLUMES && (forall i :: 0 <= i < |t| ==> Sound(t[i])) && Ordered(t)
  }

  predicate InRange(t: Table, v: nat, b: nat) {
    v < |t| && b < t[v].nbBlocs
  }

  /** Where block `b` of volume `v` lies. */
  function Place(t: Table, v: nat, b: nat): (p: nat)
    requires PartInv(t) && InRange(t, v, b)
    ensures 1 <= p < HDA_SECTORS && Start(t[v]) <= p < End(t[v])
  {
    Start(t[v]) + b
  }

  /** Two blocks lie on the same sector only if they are the same block; none lies on sector (0,0). */
  lemma PlaceInjective(t: Table, v: nat, b: nat, v': nat, b': nat)
    requires PartInv(t) && InRange(t, v, b) && InRange(t, v', b')
    ensures CytToSect(t[v], b) == CytToSect(t[v'], b') <==> v == v' && b == b'
    ensures Place(t, v, b) == Place(t, v', b') <==> v == v' && b == b'
    ensures CytToSect(t[v], b) != (0, 0)
    ensures var (c, s) := CytToSect(t[v], b);
            0 <= c < 16 && 0 <= s < 16 && 16 * c + s == Linear(c, s) == Place(t, v, b)
  {
  }

  /** The walk of format_sector is direct addressing, block after block, exactly when it starts on a
      sector of the disk. */
  lemma VisitsExact(v: Vol, n: nat)
    requires v.debutCyl >= 0 && v.debutSect >= 0
    ensures |Visits(v.debutCyl, v.debutSect, n)| == n
    ensures (forall i :: 0 <= i < n ==> Visits(v.debutCyl, v.debutSect, n)[i] == CytToSect(v, i)) <==>
            n == 0 || v.debutSect < 16
  {
    VisitsLength(v.debutCyl, v.debutSect, n);
    if v.debutSect < HDA_MAXSECTOR {
      forall i | 0 <= i < n ensures Visits(v.debutCyl, v.debutSect, n)[i] == CytToSect(v, i) {
        VisitsDirect(v.debutCyl, v.debutSect, n, i);
        CytToSectExact(v, i);
      }
    } else if n > 0 {
      assert Visits(v.debutCyl, v.debutSect, n)[0] == (v.debutCyl, v.debutSect) != CytToSect(v, 0);
    }
  }

  lemma {:induction false} VisitsLength(cyl: nat, sect: nat, n: nat)
    ensures |Visits(cyl, sect, n)| == n
    decreases n
  {
    if n > 0 {
      var (cyl', sect') := NextSector(cyl, sect);
      VisitsLength(cyl', sect', n - 1);
    }
  }

  lemma {:induction false} VisitsDirect(cyl: nat, sect: nat, n: nat, i: nat)
    requires sect < HDA_MAXSECTOR && i < n
    ensures |Visits(cyl, sect, n)| == n
    ensures var (c, s) := Visits(cyl, sect, n)[i]; s < HDA_MAXSECTOR && Linear(c, s) == Linear(cyl, sect) + i
    decreases n
  {
    VisitsLength(cyl, sect, n);
    if i > 0 {
      var (cyl', sect') := NextSector(cyl, sect);
      VisitsDirect(cyl', sect', n - 1, i - 1);
    }
  }

  // ---- Edits ------------------------------------------------------------------------------------

  /** The first sector a new volume would get. */
  function NextFree(t: Table): int {
    if t == [] then 1 else End(t[|t| - 1])
  }

  function NextAddress(t: Table): (int, int) {
    if t == [] then (0, 1) else CytToSect(t[|t| - 1], t[|t| - 1].nbBlocs)
  }

  function NewTable(t: Table, nbloc: int): Table {
    if |t| >= MAX_VOLUMES then t
    else t + [Vol(BASE, NextAddress(t).0, NextAddress(t).1, nbloc)]
  }

  /** An index past the end removes the last volume. */
  function DelTable(t: Table, vol: nat): Table {
    if t == [] then t
    else if vol < |t| then t[..vol] + t[vol + 1..]
    else t[..|t| - 1]
  }

  /** The entries of the array beyond the table: `new` fills the first one, and `del` leaves the last volume
      where it was. */
  function NewRest(t: Table, rest: seq<Vol>): seq<Vol>
    requires |t| < MAX_VOLUMES ==> rest != []
  {
    if |t| >= MAX_VOLUMES then rest else rest[1..]
  }

  function DelRest(t: Table, rest: seq<Vol>): seq<Vol> {
    if t == [] then rest else [t[|t| - 1]] + rest
  }

  /** A volume is added right after the last one, so the table stays sound exactly when the size asked
      for is positive and fits before the end of the disk. The code checks neither. */
  lemma NewExact(t: Table, nbloc: int)
    requires PartInv(t) && |t| < MAX_VOLUMES
    ensures NewTable(t, nbloc) == t + [NewTable(t, nbloc)[|t|]]
    ensures Start(NewTable(t, nbloc)[|t|]) == NextFree(t) && NewTable(t, nbloc)[|t|].nbBlocs == nbloc
    ensures PartInv(NewTable(t, nbloc)) <==> nbloc >= 1 && NextFree(t) + nbloc <= 256
  {
  }

  /** The table has eight places: a volume more, right after the last one, up to seven volumes; with eight, `new`
      changes nothing. */
  lemma EightVolumes(t: Table, nbloc: int)
    requires (forall i :: 0 <= i < |t| ==> Sound(t[i])) && Ordered(t) && |t| <= 8
    requires nbloc >= 1 && (if t == [] then 1 else End(t[|t| - 1])) + nbloc <= 256
    ensures |t| == 8 ==> NewTable(t, nbloc) == t
    ensures |t| < 8 ==>
              var u := NewTable(t, nbloc);
              && PartInv(u) && |u| == |t| + 1 && u[..|t|] == t && u[|t|].nbBlocs == nbloc
              && Start(u[|t|]) == if t == [] then 1 else End(t[|t| - 1])
  {
    if |t| < 8 { NewExact(t, nbloc); }
  }

  lemma DelInv(t: Table, vol: nat)
    requires PartInv(t)
    ensures PartInv(DelTable(t, vol))
  {
  }

  datatype Edit = New(nbloc: int) | Del(vol: nat)

  function Apply(t: Table, e: Edit): Table {
    match e
    case New(n) => NewTable(t, n)
    case Del(v) => DelTable(t, v)
  }

  function ApplyAll(t: Table, es: seq<Edit>): Table {
    if es == [] then t else Apply(ApplyAll(t, es[..|es| - 1]), es[|es| - 1])
  }

  predicate Fits(t: Table, e: Edit) {
    e.New? && |t| < MAX_VOLUMES ==> e.nbloc >= 1 && NextFree(t) + e.nbloc <= HDA_SECTORS
  }

  lemma ApplyExact(t: Table, e: Edit)
    requires PartInv(t)
    ensures PartInv(Apply(t, e)) <==> Fits(t, e)
  {
    match e
    case New(n) => if |t| < MAX_VOLUMES { NewExact(t, n); }
    case Del(v) => DelInv(t, v);
  }

  /** Over a run of edits every table is sound exactly when every `new` fitted when it was made. */
  lemma EditsExact(t: Table, es: seq<Edit>)
    requires PartInv(t)
    ensures (forall i :: 0 <= i <= |es| ==> PartInv(ApplyAll(t, es[..i]))) <==>
            (forall i :: 0 <= i < |es| ==> Fits(ApplyAll(t, es[..i]), es[i]))
  {
    if forall i :: 0 <= i <= |es| ==> PartInv(ApplyAll(t, es[..i])) {
      forall i | 0 <= i < |es| ensures Fits(ApplyAll(t, es[..i]), es[i]) {
        assert es[..i + 1][..i] == es[..i];
        assert PartInv(ApplyAll(t, es[..i + 1]));
        ApplyExact(ApplyAll(t, es[..i]), es[i]);
      }
    }
    if forall i :: 0 <= i < |es| ==> Fits(ApplyAll(t, es[..i]), es[i]) {
      forall i | 0 <= i <= |es| ensures PartInv(ApplyAll(t, es[..i])) {
        FittingEdits(t, es, i);
      }
    }
  }

  lemma {:induction false} FittingEdits(t: Table, es: seq<Edit>, i: nat)
    requires PartInv(t) && i <= |es|
    requires forall j :: 0 <= j < |es| ==> Fits(ApplyAll(t, es[..j]), es[j])
    ensures PartInv(ApplyAll(t, es[..i]))
  {
    if i > 0 {
      FittingEdits(t, es, i - 1);
      assert es[..i][..i - 1] == es[..i - 1];
      ApplyExact(ApplyAll(t, es[..i - 1]), es[i - 1]);
    }
  }
}

/** The whole disk seen through the partition table: a sequence of volumes, each one a sequence of blocks.
    Block writes, volume formats, table edits and table saves, in any order, refine the obvious operations
    on it. */
module DiskTheorems {
  import opened Drive
  import opened Partition
  import opened Volume

  datatype World<!T> = World(platter: seq<T>, table: Table)

  datatype Op<T> =
    | Write(v: nat, b: nat, x: T)
    | Format(v: nat, x: T)
    | Edit(e: Partition.Edit)
    | Save(image: T)

  predicate Inv<T>(d: World<T>) {
    |d.platter| == HDA_SECTORS && PartInv(d.table)
  }

  /** Blocks are addressed inside their volume, and a new volume fits. */
  predicate Allowed<T>(d: World<T>, op: Op<T>) {
    match op
    case Write(v, b, _) => InRange(d.table, v, b)
    case Format(v, _) => v < |d.table|
    case Edit(e) => Fits(d.table, e)
    case Save(_) => true
  }

  /** The effect on the sectors and on the table, as the methods of Volume have it. */
  function Do<T>(d: World<T>, op: Op<T>): World<T>
    requires Inv(d) && Allowed(d, op)
  {
    match op
    case Write(v, b, x) => d.(platter := d.platter[Place(d.table, v, b) := x])
    case Format(v, x) =>
      assert Sound(d.table[v]);
      d.(platter := Fill(d.platter, Start(d.table[v]), d.table[v].nbBlocs, x))
    case Edit(e) => d.(table := Apply(d.table, e))
    case Save(image) => d.(platter := d.platter[0 := image])
  }

  lemma DoInv<T>(d: World<T>, op: Op<T>)
    requires Inv(d) && Allowed(d, op)
    ensures Inv(Do(d, op))
  {
    if op.Edit? {
      ApplyExact(d.table, op.e);
    }
  }

  // ---- The abstract disk ------------------------------------------------------------------------

  function Blocks<T>(d: World<T>, v: nat): (r: seq<T>)
    requires Inv(d) && v < |d.table|
    ensures |r| == d.table[v].nbBlocs
    ensures forall b :: 0 <= b < |r| ==> r[b] == d.platter[Place(d.table, v, b)]
  {
    assert Sound(d.table[v]);
    d.platter[Start(d.table[v])..End(d.table[v])]
  }

  /** The contents of all volumes, in table order. */
  function Contents<T>(d: World<T>): (r: seq<seq<T>>)
    requires Inv(d)
    ensures |r| == |d.table|
  {
    seq(|d.table|, v requires 0 <= v < |d.table| => Blocks(d, v))
  }

  /** What an operation means for a sequence of volumes. A new volume comes with the blocks `found` on the
      area it was given. */
  function Meaning<T>(c: seq<seq<T>>, op: Op<T>, found: seq<T>): seq<seq<T>>
    requires op.Write? ==> op.v < |c| && op.b < |c[op.v]|
    requires op.Format? ==> op.v < |c|
  {
    match op
    case Write(v, b, x) => c[v := c[v][b := x]]
    case Format(v, x) => c[v := seq(|c[v]|, _ => x)]
    case Save(_) => c
    case Edit(New(n)) => if |c| >= MAX_VOLUMES then c else c + [found]
    case Edit(Del(v)) => if c == [] then c else if v < |c| then c[..v] + c[v + 1..] else c[..|c| - 1]
  }

  /** The blocks found by a new volume. */
  function Found<T>(d: World<T>, op: Op<T>): seq<T>
    requires Inv(d) && Allowed(d, op)
  {
    if op.Edit? && op.e.New? && |d.table| < MAX_VOLUMES then
      d.platter[NextFree(d.table)..NextFree(d.table) + op.e.nbloc]
    else []
  }

  /** Each operation does to the disk what it means for the sequence of volumes: in particular a write
      changes one block of one volume, and nothing else changes any block. */
  lemma Refines<T>(d: World<T>, op: Op<T>)
    requires Inv(d) && Allowed(d, op)
    ensures Inv(Do(d, op))
    ensures op.Write? ==> op.v < |Contents(d)| && op.b < |Contents(d)[op.v]|
    ensures Contents(Do(d, op)) == Meaning(Contents(d), op, Found(d, op))
  {
    DoInv(d, op);
    match op
    case Write(v, b, x) => WriteRefines(d, v, b, x);
    case Format(v, x) => FormatRefines(d, v, x);
    case Save(image) =>
      forall w | 0 <= w < |d.table| ensures Blocks(Do(d, op), w) == Blocks(d, w) {
        assert Sound(d.table[w]);
      }
    case Edit(New(n)) => if |d.table| < MAX_VOLUMES { NewRefines(d, n); }
    case Edit(Del(v)) => DelRefines(d, v);
  }

  lemma WriteRefines<T>(d: World<T>, v: nat, b: nat, x: T)
    requires Inv(d) && InRange(d.table, v, b)
    ensures Contents(Do(d, Write(v, b, x))) == Contents(d)[v := Contents(d)[v][b := x]]
  {
  }

  lemma FormatRefines<T>(d: World<T>, v: nat, x: T)
    requires Inv(d) && v < |d.table|
    ensures Contents(Do(d, Format(v, x))) == Contents(d)[v := seq(|Contents(d)[v]|, _ => x)]
  {
    var d' := Do(d, Format(v, x));
    var all := seq(|Contents(d)[v]|, _ => x);
    forall w | 0 <= w < |d.table| ensures Blocks(d', w) == if w == v then all else Blocks(d, w) {
      FormatBlocks(d, v, x, w);
    }
  }

  lemma FormatBlocks<T>(d: World<T>, v: nat, x: T, w: nat)
    requires Inv(d) && v < |d.table| && w < |d.table|
    ensures var d' := Do(d, Format(v, x));
            Inv(d') && d'.table == d.table
            && Blocks(d', w) == if w == v then seq(|Blocks(d, v)|, _ => x) else Blocks(d, w)
  {
    var d' := Do(d, Format(v, x));
    forall b | 0 <= b < d.table[w].nbBlocs ensures Blocks(d', w)[b] == if w == v then x else Blocks(d, w)[b] {
      FormatBack(d, v, x, w, b);
    }
  }

  lemma NewRefines<T>(d: World<T>, n: int)
    requires Inv(d) && Fits(d.table, New(n)) && |d.table| < MAX_VOLUMES
    ensures Inv(Do(d, Edit(New(n))))
    ensures Contents(Do(d, Edit(New(n)))) == Contents(d) + [Found(d, Edit(New(n)))]
  {
    NewExact(d.table, n);
    var d' := Do(d, Edit(New(n)));
    assert forall w :: 0 <= w < |d.table| ==> d'.table[w] == d.table[w];
    forall w | 0 <= w < |d.table| ensures Blocks(d', w) == Blocks(d, w) {
    }
    assert Blocks(d', |d.table|) == Found(d, Edit(New(n)));
  }

  lemma SameBlocks<T>(d: World<T>, d': World<T>, v: nat, v': nat)
    requires Inv(d) && Inv(d') && v < |d.table| && v' < |d'.table|
    requires d.platter == d'.platter && d.table[v] == d'.table[v']
    ensures Blocks(d', v') == Blocks(d, v)
  {
  }

  lemma DelRefines<T>(d: World<T>, v: nat)
    requires Inv(d)
    ensures Inv(Do(d, Edit(Del(v))))
    ensures Contents(Do(d, Edit(Del(v)))) == Meaning(Contents(d), Edit(Del(v)), [])
  {
    DelInv(d.table, v);
    var d' := Do(d, Edit(Del(v)));
    forall w | 0 <= w < |d'.table| ensures Blocks(d', w) == Contents(d)[if w < v then w else w + 1] {
      SameBlocks(d, d', if w < v then w else w + 1, w);
    }
    hide Blocks, PartInv, Sound;
    assert Contents(d') == Meaning(Contents(d), Edit(Del(v)), []);
  }

  // ---- Runs -------------------------------------------------------------------------------------

  /** `tr` holds the states of a run of allowed operations. */
  predicate IsRun<T(==)>(tr: seq<World<T>>, ops: seq<Op<T>>) {
    && |tr| == |ops| + 1
    && (forall i :: 0 <= i < |ops| ==> Inv(tr[i]) && Allowed(tr[i], ops[i]) && tr[i + 1] == Do(tr[i], ops[i]))
  }

  lemma RunInv<T>(tr: seq<World<T>>, ops: seq<Op<T>>, i: nat)
    requires IsRun(tr, ops) && Inv(tr[0]) && i <= |ops|
    ensures Inv(tr[i])
  {
    if i > 0 {
      assert tr[i - 1 + 1] == Do(tr[i - 1], ops[i - 1]);
      DoInv(tr[i - 1], ops[i - 1]);
    }
  }

  /** Where the content of a block comes from: an operation, the start of the run, or the sector the block was
      given by operation `k`, which created its volume. */
  datatype Origin<T> = Written(x: T) | Initial(v: nat, b: nat) | Unwritten(k: nat)

  datatype Step<T> = From(o: Origin<T>) | Follow(v: nat)

  /** Operation `k`, made when there were `len` volumes, seen from block `b` of what is volume `v` after it:
      it gave the block its content, or the volume was number `Follow` before. */
  function Back<T>(len: nat, k: nat, op: Op<T>, v: nat, b: nat): Step<T> {
    match op
    case Write(w, c, x) => if w == v && c == b then From(Written(x)) else Follow(v)
    case Format(w, x) => if w == v then From(Written(x)) else Follow(v)
    case Save(_) => Follow(v)
    case Edit(New(_)) => if v == len then From(Unwritten(k)) else Follow(v)
    case Edit(Del(w)) => Follow(if w <= v then v + 1 else v)
  }

  /** The last operation of the run that concerns block `b` of what is now volume `v`. `lens` gives the number
      of volumes before each operation. */
  function LastWrite<T>(lens: seq<nat>, ops: seq<Op<T>>, v: nat, b: nat): Origin<T>
    requires |lens| == |ops|
  {
    if ops == [] then Initial(v, b)
    else
      var k := |ops| - 1;
      match Back(lens[k], k, ops[k], v, b)
      case From(o) => o
      case Follow(w) => LastWrite(lens[..k], ops[..k], w, b)
  }

  function Lengths<T>(tr: seq<World<T>>, n: nat): (r: seq<nat>)
    requires n <= |tr|
    ensures |r| == n && forall i :: 0 <= i < n ==> r[i] == |tr[i].table|
  {
    seq(n, i requires 0 <= i < n => |tr[i].table|)
  }

  /** Block `b` of volume `v` holds what `o` says. */
  predicate Holds<T(==)>(tr: seq<World<T>>, d: World<T>, v: nat, b: nat, o: Origin<T>)
    requires tr != [] && Inv(tr[0]) && Inv(d) && InRange(d.table, v, b)
  {
    match o
    case Written(x) => At(d, v, b) == x
    case Initial(v0, b0) => InRange(tr[0].table, v0, b0) && At(d, v, b) == At(tr[0], v0, b0)
    case Unwritten(k) =>
      && k < |tr| && 0 <= NextFree(tr[k].table) + b < |tr[k].platter|
      && At(d, v, b) == tr[k].platter[NextFree(tr[k].table) + b]
  }

  lemma SameContent<T>(tr: seq<World<T>>, d: World<T>, v: nat, d': World<T>, v': nat, b: nat, o: Origin<T>)
    requires tr != [] && Inv(tr[0]) && Inv(d) && InRange(d.table, v, b) && Inv(d') && InRange(d'.table, v', b)
    requires At(d, v, b) == At(d', v', b) && Holds(tr, d, v, b, o)
    ensures Holds(tr, d', v', b, o)
  {
  }

  lemma BackHolds<T>(tr: seq<World<T>>, k: nat, op: Op<T>, v: nat, b: nat)
    requires k < |tr| && Inv(tr[0]) && Inv(tr[k]) && Allowed(tr[k], op)
    requires InRange(Do(tr[k], op).table, v, b)
    ensures Inv(Do(tr[k], op))
    ensures match Back(|tr[k].table|, k, op, v, b)
            case From(o) => Holds(tr, Do(tr[k], op), v, b, o)
            case Follow(w) => InRange(tr[k].table, w, b) && At(tr[k], w, b) == At(Do(tr[k], op), v, b)
  {
    DoInv(tr[k], op);
    match op
    case Write(w, c, x) => WriteBack(tr[k], w, c, x, v, b);
    case Format(w, x) => FormatBack(tr[k], w, x, v, b);
    case Save(x) => SaveBack(tr[k], x, v, b);
    case Edit(New(n)) => if v == |tr[k].table| { NewFound(tr[k], n, b); } else { NewBack(tr[k], n, v, b); }
    case Edit(Del(w)) => DelBack(tr[k], w, v, b);
  }

  /** Reading a block after any run returns what was last written or formatted there; before any such
      operation, what was there at the start, or what its sector held when its volume was created. */
  lemma {:induction false} ReadsLastWrite<T>(tr: seq<World<T>>, ops: seq<Op<T>>, i: nat, v: nat, b: nat)
    requires IsRun(tr, ops) && Inv(tr[0]) && i <= |ops| && Inv(tr[i]) && InRange(tr[i].table, v, b)
    ensures Holds(tr, tr[i], v, b, LastWrite(Lengths(tr, i), ops[..i], v, b))
  {
    if i > 0 {
      var k := i - 1;
      assert ops[..i][..k] == ops[..k] && ops[..i][k] == ops[k];
      assert Lengths(tr, i)[..k] == Lengths(tr, k) && Lengths(tr, i)[k] == |tr[k].table|;
      assert tr[k + 1] == Do(tr[k], ops[k]) && Inv(tr[k]) && Allowed(tr[k], ops[k]);
      hide Inv, At, Back, Holds, Allowed, Do, InRange, IsRun;
      BackHolds(tr, k, ops[k], v, b);
      match Back(|tr[k].table|, k, ops[k], v, b)
      case From(o) =>
      case Follow(w) =>
        ReadsLastWrite(tr, ops, k, w, b);
        SameContent(tr, tr[k], w, tr[i], v, b, LastWrite(Lengths(tr, k), ops[..k], w, b));
    }
  }

  lemma NewFound<T>(d: World<T>, n: int, b: nat)
    requires Inv(d) && Fits(d.table, New(n)) && InRange(NewTable(d.table, n), |d.table|, b)
    ensures var d' := Do(d, Edit(New(n)));
            && Inv(d') && d'.table == NewTable(d.table, n) && 0 <= NextFree(d.table) + b < |d.platter|
            && At(d', |d.table|, b) == d.platter[NextFree(d.table) + b]
  {
    NewExact(d.table, n);
    DoInv(d, Edit(New(n)));
  }

  // One operation, seen from one block that exists afterwards.

  function At<T>(d: World<T>, v: nat, b: nat): T
    requires Inv(d) && InRange(d.table, v, b)
  {
    d.platter[Place(d.table, v, b)]
  }

  lemma WriteBack<T>(d: World<T>, w: nat, c: nat, x: T, v: nat, b: nat)
    requires Inv(d) && InRange(d.table, w, c) && InRange(d.table, v, b)
    ensures var d' := Do(d, Write(w, c, x));
            Inv(d') && d'.table == d.table && At(d', v, b) == if w == v && c == b then x else At(d, v, b)
  {
  }

  lemma FormatBack<T>(d: World<T>, w: nat, x: T, v: nat, b: nat)
    requires Inv(d) && w < |d.table| && InRange(d.table, v, b)
    ensures var d' := Do(d, Format(w, x));
            Inv(d') && d'.table == d.table && At(d', v, b) == if w == v then x else At(d, v, b)
  {
  }

  lemma SaveBack<T>(d: World<T>, x: T, v: nat, b: nat)
    requires Inv(d) && InRange(d.table, v, b)
    ensures var d' := Do(d, Save(x)); Inv(d') && d'.table == d.table && At(d', v, b) == At(d, v, b)
  {
  }

  /** A volume whose entry is that of another one in an edited table has the same blocks. */
  lemma SameEntry<T>(d: World<T>, t: Table, v: nat, was: nat, b: nat)
    requires Inv(d) && Inv(d.(table := t)) && InRange(t, v, b) && was < |d.table| && t[v] == d.table[was]
    ensures InRange(d.table, was, b) && At(d.(table := t), v, b) == At(d, was, b)
  {
    hide PartInv;
  }

  lemma NewBack<T>(d: World<T>, n: int, v: nat, b: nat)
    requires Inv(d) && Fits(d.table, New(n)) && v != |d.table| && InRange(NewTable(d.table, n), v, b)
    ensures var d' := Do(d, Edit(New(n)));
            && Inv(d') && d'.table == NewTable(d.table, n) && InRange(d.table, v, b)
            && At(d', v, b) == At(d, v, b)
  {
    DoInv(d, Edit(New(n)));
    assert Do(d, Edit(New(n))) == World(d.platter, NewTable(d.table, n));
    assert v < |d.table| && NewTable(d.table, n)[v] == d.table[v];
    hide Do, Apply, NewTable, PartInv, At, Inv;
    SameEntry(d, NewTable(d.table, n), v, v, b);
  }

  lemma DelEntry(t: Table, w: nat, v: nat)
    requires v < |DelTable(t, w)|
    ensures v < |t| - 1 && DelTable(t, w)[v] == t[if w <= v then v + 1 else v]
  {
  }

  lemma DelBack<T>(d: World<T>, w: nat, v: nat, b: nat)
    requires Inv(d) && InRange(DelTable(d.table, w), v, b)
    ensures var d' := Do(d, Edit(Del(w)));
            var was := if w <= v then v + 1 else v;
            && Inv(d') && d'.table == DelTable(d.table, w) && InRange(d.table, was, b)
            && At(d', v, b) == At(d, was, b)
  {
    DoInv(d, Edit(Del(w)));
    DelEntry(d.table, w, v);
    assert Do(d, Edit(Del(w))) == World(d.platter, DelTable(d.table, w));
    hide Do, Apply, DelTable, PartInv, At, Inv;
    SameEntry(d, DelTable(d.table, w), v, if w <= v then v + 1 else v, b);
  }
}

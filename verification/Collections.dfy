/** What both machines of this project use of sequences and optional values. */
module Collections {

  datatype Option<+T> = None | Some(value: T)

  predicate Distinct<T(==)>(s: seq<T>) {
    forall i, j :: 0 <= i < j < |s| ==> s[i] != s[j]
  }

  /** The first position of `x`. */
  function IndexOf<T(==)>(s: seq<T>, x: T): (i: nat)
    requires x in s
    ensures i < |s| && s[i] == x && x !in s[..i]
  {
    if s[0] == x then 0 else IndexOf(s[1..], x) + 1
  }

  /** The sequence short of position `i`. */
  function Without<T>(w: seq<T>, i: nat): (r: seq<T>)
    requires i < |w|
    ensures |r| == |w| - 1
    ensures forall j :: 0 <= j < |r| ==> r[j] == if j < i then w[j] else w[j + 1]
  {
    w[..i] + w[i + 1..]
  }
}

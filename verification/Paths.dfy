/**
 Paths as sequences of elements, and the order that keeps the table of allowed paths sorted
 (`ComparePathSegments`, src/config.hpp).

 Iterating over an absolute `std::filesystem::path` yields the root directory and then one
 element per file name; a relative path has no root element.  Elements compare as one-element
 paths do in [fs.path.compare] of ISO C++20: a name is below the root directory, and two names
 compare character by character.
 */
module Paths {
  datatype Elem = Name(name: string) | Root

  type Path = seq<Elem>

  const ROOT: Path := [Root]

  predicate NameLess(a: string, b: string) {
    b != [] && (a == [] || a[0] < b[0] || (a[0] == b[0] && NameLess(a[1..], b[1..])))
  }

  predicate ElemLess(a: Elem, b: Elem) {
    match (a, b)
    case (Name(x), Name(y)) => NameLess(x, y)
    case (Name(_), Root) => true
    case (Root, _) => false
  }

  /** `std::mismatch`: how many leading elements two paths share. */
  function Mismatch(a: Path, b: Path): (k: nat)
    ensures k <= |a| && k <= |b|
    ensures a[..k] == b[..k]
    ensures k < |a| && k < |b| ==> a[k] != b[k]
  {
    if a != [] && b != [] && a[0] == b[0] then
      var k := 1 + Mismatch(a[1..], b[1..]);
      assert a[..k] == [a[0]] + a[1..][..k - 1] && b[..k] == [b[0]] + b[1..][..k - 1];
      k
    else
      0
  }

  /** The comparator, branch by branch. */
  predicate PathLess(left: Path, right: Path) {
    var k := Mismatch(left, right);
    if k == |left| then k != |right|
    else if k == |right| then false
    else ElemLess(left[k], right[k])
  }

  predicate PathAtMost(left: Path, right: Path) {
    !PathLess(right, left)
  }

  /** The first difference decides, and a path comes before its extensions. */
  lemma PathLessMeans(a: Path, b: Path, shared: Path, x: Path, y: Path)
    requires a == shared + x && b == shared + y && (x != [] && y != [] ==> x[0] != y[0])
    ensures PathLess(a, b) <==> y != [] && (x == [] || ElemLess(x[0], y[0]))
  {
    MismatchIs(a, b, |shared|);
  }

  lemma {:induction false} NameLessMeans(a: string, b: string, shared: string, x: string, y: string)
    requires a == shared + x && b == shared + y && (x != [] && y != [] ==> x[0] != y[0])
    ensures NameLess(a, b) <==> y != [] && (x == [] || x[0] < y[0])
    decreases |shared|
  {
    if shared != [] {
      assert a[0] == b[0] == shared[0];
      assert a[1..] == shared[1..] + x && b[1..] == shared[1..] + y;
      NameLessMeans(a[1..], b[1..], shared[1..], x, y);
    }
  }

  // ---------------------------------------------------------------- elements

  lemma NameOrder(a: string, b: string)
    ensures !(NameLess(a, b) && NameLess(b, a))
    ensures NameLess(a, b) || NameLess(b, a) || a == b
    ensures !NameLess(a, a)
  {}

  lemma NameIrreflexive(a: string)
    ensures !NameLess(a, a)
  {}

  lemma {:induction false} NameTransitive(a: string, b: string, c: string)
    requires NameLess(a, b) && NameLess(b, c)
    ensures NameLess(a, c)
  {
    if a != [] && a[0] == b[0] && b[0] == c[0] {
      NameTransitive(a[1..], b[1..], c[1..]);
    }
  }

  lemma ElemOrder(a: Elem, b: Elem)
    ensures !(ElemLess(a, b) && ElemLess(b, a))
    ensures ElemLess(a, b) || ElemLess(b, a) || a == b
    ensures !ElemLess(a, a)
  {
    if a.Name? && b.Name? {
      NameOrder(a.name, b.name);
    }
    if a.Name? {
      NameIrreflexive(a.name);
    }
  }

  lemma ElemTransitive(a: Elem, b: Elem, c: Elem)
    requires ElemLess(a, b) && ElemLess(b, c)
    ensures ElemLess(a, c)
  {
    if a.Name? && b.Name? && c.Name? {
      NameTransitive(a.name, b.name, c.name);
    }
  }

  // ---------------------------------------------------------------- paths

  /** The mismatch position is the only one with its property, and does not depend on the argument order. */
  lemma MismatchIs(a: Path, b: Path, k: nat)
    requires k <= |a| && k <= |b| && a[..k] == b[..k]
    requires k < |a| && k < |b| ==> a[k] != b[k]
    ensures Mismatch(a, b) == k
    ensures Mismatch(b, a) == k
  {
    assert forall t | 0 <= t < k :: a[t] == a[..k][t] == b[..k][t] == b[t];
    var m, n := Mismatch(a, b), Mismatch(b, a);
    assert forall t | 0 <= t < m :: a[t] == a[..m][t] == b[..m][t] == b[t];
    assert forall t | 0 <= t < n :: a[t] == a[..n][t] == b[..n][t] == b[t];
  }

  /** The comparator is asymmetric and total: `find` on the map is equality of segment sequences. */
  lemma PathOrder(a: Path, b: Path)
    ensures !(PathLess(a, b) && PathLess(b, a))
    ensures PathLess(a, b) || PathLess(b, a) || a == b
    ensures !PathLess(a, a)
  {
    var k := Mismatch(a, b);
    MismatchIs(a, b, k);
    MismatchIs(a, a, |a|);
    if k < |a| && k < |b| {
      ElemOrder(a[k], b[k]);
    } else if k == |a| == |b| {
      assert a == a[..k] && b == b[..k];
    }
  }

  lemma PathTransitive(a: Path, b: Path, c: Path)
    requires PathLess(a, b) && PathLess(b, c)
    ensures PathLess(a, c)
  {
    var i, j := Mismatch(a, b), Mismatch(b, c);
    var m := if i < j then i else j;
    assert a[..m] == a[..i][..m] == b[..i][..m] == b[..m];
    assert b[..m] == b[..j][..m] == c[..j][..m] == c[..m];
    if i < j {
      assert b[i] == b[..j][i] == c[..j][i] == c[i];
      MismatchIs(a, c, i);
    } else if j < i {
      assert a[j] == a[..i][j] == b[..i][j] == b[j];
      MismatchIs(a, c, j);
    } else if i < |a| {
      ElemTransitive(a[i], b[i], c[i]);
      ElemOrder(a[i], c[i]);
      MismatchIs(a, c, i);
    } else {
      MismatchIs(a, c, i);
    }
  }

  /** A directory comes before everything below it. */
  lemma PrefixFirst(d: Path, x: Path)
    requires d <= x
    ensures PathAtMost(d, x)
    ensures d != x ==> PathLess(d, x)
  {}

  lemma PrefixByMismatch(k: Path, p: Path)
    ensures Mismatch(k, p) == |k| <==> k <= p
  {}

  /** The descendants of a directory form one contiguous block of the order. */
  lemma DescendantsContiguous(d: Path, x: Path, k: Path, y: Path)
    requires d <= x && d <= y
    requires PathAtMost(x, k) && PathAtMost(k, y)
    ensures d <= k
  {
    var m := Mismatch(k, d);
    if m < |d| {
      assert x[m] == d[m] == y[m];
      assert k[..m] == d[..m] == x[..m] == y[..m];
      MismatchIs(x, k, m);
      MismatchIs(k, y, m);
      if m < |k| {
        ElemOrder(k[m], d[m]);
      }
      assert false;
    }
  }

  /** Two absolute paths share at least the root directory. */
  lemma SharedPrefix(k: Path, p: Path)
    requires ROOT <= k && ROOT <= p && !(k <= p)
    ensures 0 < Mismatch(k, p) < |k|
  {}

  /** A path below the root directory comes after its parent. */
  lemma ParentFirst(k: Path, p: Path)
    requires ROOT <= k <= p && k != ROOT
    ensures |k| > 1 && PathLess(p[..|k| - 1], k)
  {}

  /** Of two prefixes of one path the earlier one is the shorter one. */
  lemma ShorterPrefix(d: Path, k: Path, p: Path)
    requires d <= p && k <= p && d != k && PathAtMost(d, k)
    ensures |d| < |k| && d <= p[..|k| - 1]
  {}

  /** A prefix of `p` that lies at or before a key `k` below `p` is a prefix of what `k` and `p` share. */
  lemma PrefixWithinShared(d: Path, k: Path, p: Path)
    requires d <= p && PathAtMost(d, k) && PathAtMost(k, p)
    ensures d <= p[..Mismatch(k, p)]
  {
    DescendantsContiguous(d, d, k, p);
    var n := Mismatch(k, p);
    assert forall t | 0 <= t < |d| :: d[t] == p[t] == k[t];
  }

  /** Nothing absolute is at most a path that is empty or starts with a name. */
  lemma AbsoluteAboveRelative(abs: Path, rel: Path)
    requires ROOT <= abs
    requires !(ROOT <= rel)
    ensures PathLess(rel, abs)
  {}
}

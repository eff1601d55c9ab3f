/**
 The table of allowed paths: a `std::map` ordered by path segments, held as its entries in
 iteration order, so that an iterator is an index (src/config.hpp:55-83).
 */
module PathTable {
  import opened Paths

  datatype VirtualPath = VirtualPath(
    realPath: Path, virtualPath: Path, readable: bool, writable: bool, symlink: bool)

  datatype Entry = Entry(key: Path, value: VirtualPath)

  type Table = seq<Entry>

  predicate Ordered(m: Table) {
    forall i, j | 0 <= i < j < |m| :: PathLess(m[i].key, m[j].key)
  }

  predicate AbsoluteKeys(m: Table) {
    forall i | 0 <= i < |m| :: ROOT <= m[i].key
  }

  lemma OrderedAtMost(m: Table, i: nat, j: nat)
    requires Ordered(m) && i <= j < |m|
    ensures PathAtMost(m[i].key, m[j].key)
  {
    PathOrder(m[i].key, m[j].key);
  }

  /** The table without its order. */
  ghost function View(m: Table): map<Path, VirtualPath> {
    map k | k in (set e | e in m :: e.key) :: ValueOf(m, k)
  }

  ghost function ValueOf(m: Table, k: Path): (v: VirtualPath)
    requires exists e | e in m :: e.key == k
    ensures exists e | e in m :: e.key == k && e.value == v
  {
    var e :| e in m && e.key == k;
    e.value
  }

  lemma KeysDistinct(m: Table, i: nat, j: nat)
    requires Ordered(m) && i < |m| && j < |m| && m[i].key == m[j].key
    ensures i == j
  {}

  lemma ViewAt(m: Table, i: nat)
    requires Ordered(m) && i < |m|
    ensures m[i].key in View(m) && View(m)[m[i].key] == m[i].value
  {}

  lemma ViewFrom(m: Table, k: Path) returns (i: nat)
    requires Ordered(m) && k in View(m)
    ensures i < |m| && m[i].key == k && m[i].value == View(m)[k]
  {
    var e :| e in m && e.key == k;
    i :| i < |m| && m[i] == e;
    ViewAt(m, i);
  }

  /** `upper_bound`: the first entry whose key is above the probe. */
  function UpperBound(m: Table, probe: Path): (i: nat)
    ensures i <= |m|
  {
    UpperBoundFrom(m, probe, 0)
  }

  function UpperBoundFrom(m: Table, probe: Path, from: nat): (i: nat)
    requires from <= |m|
    ensures from <= i <= |m|
    decreases |m| - from
  {
    if from == |m| || PathLess(probe, m[from].key) then from else UpperBoundFrom(m, probe, from + 1)
  }

  lemma {:induction false} UpperBoundFromSplits(m: Table, probe: Path, from: nat, j: nat)
    requires Ordered(m) && from <= j < |m|
    ensures j < UpperBoundFrom(m, probe, from) <==> PathAtMost(m[j].key, probe)
    decreases |m| - from
  {
    if PathLess(probe, m[from].key) {
      if from < j {
        PathTransitive(probe, m[from].key, m[j].key);
      }
    } else if from < j {
      UpperBoundFromSplits(m, probe, from + 1, j);
    }
  }

  /** Everything at most the probe is before the upper bound, everything above it is not. */
  lemma UpperBoundSplits(m: Table, probe: Path, j: nat)
    requires Ordered(m) && j < |m|
    ensures j < UpperBound(m, probe) <==> PathAtMost(m[j].key, probe)
  {
    UpperBoundFromSplits(m, probe, 0, j);
  }

  /** `find`: the entry at a key, or the end. */
  function Locate(m: Table, k: Path): (i: nat)
    requires Ordered(m)
    ensures i <= |m|
    ensures i < |m| ==> m[i].key == k
    ensures i == |m| <==> k !in View(m)
  {
    var u := UpperBound(m, k);
    LocateByUpperBound(m, k);
    if u > 0 && m[u - 1].key == k then u - 1 else |m|
  }

  lemma LocateByUpperBound(m: Table, k: Path)
    requires Ordered(m)
    ensures var u := UpperBound(m, k); k in View(m) <==> u > 0 && m[u - 1].key == k
  {
    var u := UpperBound(m, k);
    if k in View(m) {
      var i := ViewFrom(m, k);
      JustBefore(m, k, i);
    } else if u > 0 {
      ViewAt(m, u - 1);
    }
  }

  /** The entry at a key is the last before its upper bound. */
  lemma JustBefore(m: Table, k: Path, i: nat)
    requires Ordered(m) && i < |m| && m[i].key == k
    ensures UpperBound(m, k) == i + 1
  {
    PathOrder(k, k);
    UpperBoundSplits(m, k, i);
    if i + 1 < |m| {
      UpperBoundSplits(m, k, i + 1);
      assert PathLess(k, m[i + 1].key);
    }
  }

  /** `emplace` of a key that is not there. */
  function Emplace(m: Table, e: Entry): (r: Table)
    requires Ordered(m) && e.key !in View(m)
    ensures Ordered(r)
    ensures View(r) == View(m)[e.key := e.value]
  {
    var u := UpperBound(m, e.key);
    var r := m[..u] + [e] + m[u..];
    EmplaceOrdered(m, e);
    EmplaceView(m, e);
    r
  }

  lemma EmplaceOrdered(m: Table, e: Entry)
    requires Ordered(m) && e.key !in View(m)
    ensures var u := UpperBound(m, e.key); Ordered(m[..u] + [e] + m[u..])
  {
    var u := UpperBound(m, e.key);
    forall j | 0 <= j < |m|
      ensures j < u ==> PathLess(m[j].key, e.key)
      ensures u <= j ==> PathLess(e.key, m[j].key)
    {
      UpperBoundSplits(m, e.key, j);
      ViewAt(m, j);
      PathOrder(m[j].key, e.key);
    }
    InsertOrdered(m, e, u);
  }

  lemma InsertOrdered(m: Table, e: Entry, u: nat)
    requires Ordered(m) && u <= |m|
    requires forall j | 0 <= j < u :: PathLess(m[j].key, e.key)
    requires forall j | u <= j < |m| :: PathLess(e.key, m[j].key)
    ensures Ordered(m[..u] + [e] + m[u..])
  {}

  lemma EmplaceView(m: Table, e: Entry)
    requires Ordered(m) && e.key !in View(m)
    ensures var u := UpperBound(m, e.key); View(m[..u] + [e] + m[u..]) == View(m)[e.key := e.value]
  {
    var u := UpperBound(m, e.key);
    var r := m[..u] + [e] + m[u..];
    EmplaceOrdered(m, e);
    assert m == m[..u] + m[u..];
    assert forall x :: x in r <==> x in m || x == e;
    SameEntries(r, View(m)[e.key := e.value], m, e);
  }

  lemma SameEntries(r: Table, v: map<Path, VirtualPath>, m: Table, e: Entry)
    requires Ordered(m) && Ordered(r) && v == View(m)[e.key := e.value]
    requires e in r
    requires forall x :: x in r ==> x == e || (x in m && x.key != e.key)
    requires forall x :: x in m && x.key != e.key ==> x in r
    ensures View(r) == v
  {
    forall k | k in View(r)
      ensures k in v && View(r)[k] == v[k]
    {
      var i := ViewFrom(r, k);
      assert r[i] in r;
      if r[i] != e {
        var j :| 0 <= j < |m| && m[j] == r[i];
        ViewAt(m, j);
      }
    }
    forall k | k in v
      ensures k in View(r)
    {
      if k == e.key {
        assert e in r;
      } else {
        var i := ViewFrom(m, k);
        assert m[i] in m;
      }
    }
  }

  /** Assigning through the iterator that `find` returned. */
  function Assign(m: Table, i: nat, value: VirtualPath): (r: Table)
    requires Ordered(m) && i < |m|
    ensures Ordered(r)
    ensures View(r) == View(m)[m[i].key := value]
  {
    var e := Entry(m[i].key, value);
    var r := m[i := e];
    assert forall j | 0 <= j < |m| :: r[j].key == m[j].key;
    AssignView(m, i, value);
    r
  }

  lemma AssignView(m: Table, i: nat, value: VirtualPath)
    requires Ordered(m) && i < |m|
    ensures View(m[i := Entry(m[i].key, value)]) == View(m)[m[i].key := value]
  {
    var e := Entry(m[i].key, value);
    var r := m[i := e];
    assert forall j | 0 <= j < |m| :: r[j].key == m[j].key;
    forall x | x in r
      ensures x == e || (x in m && x.key != e.key)
    {
      var j :| 0 <= j < |r| && r[j] == x;
      if j != i {
        assert x == m[j];
        if x.key == e.key {
          KeysDistinct(m, i, j);
        }
      }
    }
    forall x | x in m && x.key != e.key
      ensures x in r
    {
      var j :| 0 <= j < |m| && m[j] == x;
      assert r[j] == x;
    }
    assert r[i] == e;
    SameEntries(r, View(m)[e.key := e.value], m, e);
  }
}

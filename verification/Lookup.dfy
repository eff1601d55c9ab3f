/**
 The lookup behind every open, connect and symlink decision (`lookup_allowed_path`, src/vm.cpp:65-99).

 It jumps from predecessor to predecessor in the ordered table, each time shrinking the probe to the
 prefix it shares with the key it met, and gives up when `failsafe` reaches zero.  The specification
 is the plain one: try every prefix of the path, longest first, in an unordered map.
 */
module Lookup {
  import opened Wrappers
  import opened Paths
  import opened PathTable
  import opened Normalize

  type Right = VirtualPath -> bool

  /** The longest prefix of `p`, of length at most `n`, that is granted the right; its real path plus the rest of `p`. */
  function LongestGrant(v: map<Path, VirtualPath>, p: Path, n: nat, right: Right): Option<Path>
    requires n <= |p|
  {
    if p[..n] in v && right(v[p[..n]]) then Some(v[p[..n]].realPath + p[n..])
    else if n == 0 then None
    else LongestGrant(v, p, n - 1, right)
  }

  /** Entry `i` is a prefix of the path and carries the right. */
  predicate Grants(m: Table, i: nat, p: Path, right: Right)
    requires i < |m|
  {
    m[i].key <= p && right(m[i].value)
  }

  // ---------------------------------------------------------------- what the specification says

  lemma {:induction false} LongestGrantMeans(v: map<Path, VirtualPath>, p: Path, n: nat, right: Right)
    requires n <= |p|
    ensures LongestGrant(v, p, n, right) == None <==>
            forall k | k in v && k <= p && |k| <= n :: !right(v[k])
    ensures forall k | k in v && k <= p && |k| <= n && right(v[k]) &&
                       (forall k' | k' in v && k' <= p && |k'| <= n && right(v[k']) :: |k'| <= |k|) ::
              LongestGrant(v, p, n, right) == Some(v[k].realPath + p[|k|..])
  {
    var q := p[..n];
    if q in v && right(v[q]) {
      forall k | k in v && k <= p && |k| <= n && right(v[k]) &&
                 (forall k' | k' in v && k' <= p && |k'| <= n && right(v[k']) :: |k'| <= |k|)
        ensures k == q
      {
        assert |q| <= |k|;
        assert k == p[..|k|];
      }
    } else if n == 0 {
      assert forall k | k in v && k <= p && |k| <= n :: k == q;
    } else {
      LongestGrantMeans(v, p, n - 1, right);
      forall k | k in v && k <= p && |k| <= n && right(v[k])
        ensures |k| <= n - 1
      {
        assert k == p[..|k|];
      }
    }
  }

  /** The specification picks entry `i` when it grants and no granting entry is longer. */
  lemma PicksEntry(m: Table, p: Path, right: Right, i: nat)
    requires Ordered(m) && i < |m| && Grants(m, i, p, right)
    requires forall j | 0 <= j < |m| && Grants(m, j, p, right) :: j <= i
    ensures LongestGrant(View(m), p, |p|, right) == Some(m[i].value.realPath + p[|m[i].key|..])
  {
    var v := View(m);
    var k := m[i].key;
    ViewAt(m, i);
    forall k' | k' in v && k' <= p && |k'| <= |p| && right(v[k'])
      ensures |k'| <= |k|
    {
      var j := ViewFrom(m, k');
      assert Grants(m, j, p, right);
      if |k| < |k'| {
        PrefixFirst(k, k');
        PathOrder(k, k');
      }
    }
    LongestGrantMeans(v, p, |p|, right);
  }

  lemma PicksNothing(m: Table, p: Path, right: Right)
    requires Ordered(m)
    requires forall j | 0 <= j < |m| :: !Grants(m, j, p, right)
    ensures LongestGrant(View(m), p, |p|, right) == None
  {
    var v := View(m);
    forall k | k in v && k <= p && |k| <= |p|
      ensures !right(v[k])
    {
      var j := ViewFrom(m, k);
      assert !Grants(m, j, p, right);
    }
    LongestGrantMeans(v, p, |p|, right);
  }

  // ---------------------------------------------------------------- one jump

  /** The entries that may still grant all lie before `it`, and `it` is at or before the path. */
  ghost predicate Pending(m: Table, p: Path, right: Right, it: nat) {
    && it <= UpperBound(m, p)
    && forall j | 0 <= j < |m| && Grants(m, j, p, right) :: j < it
  }

  /** The next probe: the shared prefix, where the empty prefix becomes the root directory again. */
  function Probe(p: Path, n: nat): Path
    requires n <= |p|
  {
    if n == 0 then ROOT else p[..n]
  }

  /** The table is searched at all only for an absolute path. */
  lemma OnlyAbsolute(m: Table, p: Path)
    requires Ordered(m) && AbsoluteKeys(m) && UpperBound(m, p) > 0
    ensures ROOT <= p
  {
    UpperBoundSplits(m, p, 0);
    if !(ROOT <= p) {
      AbsoluteAboveRelative(m[0].key, p);
    }
  }

  /** Moving to a probe before the current entry is safe when every granting key is a prefix of it. */
  lemma MoveBack(m: Table, p: Path, right: Right, it: nat, q: Path)
    requires Ordered(m) && 0 < it && Pending(m, p, right, it) && PathLess(q, m[it - 1].key)
    requires forall j | 0 <= j < |m| && Grants(m, j, p, right) :: m[j].key <= q
    ensures UpperBound(m, q) < it && Pending(m, p, right, UpperBound(m, q))
  {
    UpperBoundSplits(m, q, it - 1);
    forall j | 0 <= j < |m| && Grants(m, j, p, right)
      ensures j < UpperBound(m, q)
    {
      PrefixFirst(m[j].key, q);
      UpperBoundSplits(m, q, j);
    }
  }

  /** A key that is no prefix of the path: shrinking the probe to the shared part loses nothing and moves strictly back. */
  lemma JumpPastSibling(m: Table, p: Path, right: Right, it: nat)
    requires Ordered(m) && AbsoluteKeys(m) && 0 < it && Pending(m, p, right, it)
    requires !(m[it - 1].key <= p)
    ensures var next := UpperBound(m, Probe(p, Mismatch(m[it - 1].key, p)));
            next < it && Pending(m, p, right, next)
  {
    var k := m[it - 1].key;
    OnlyAbsolute(m, p);
    SharedPrefix(k, p);
    var q := p[..Mismatch(k, p)];
    PrefixFirst(q, k);
    UpperBoundSplits(m, p, it - 1);
    forall j | 0 <= j < |m| && Grants(m, j, p, right)
      ensures m[j].key <= q
    {
      OrderedAtMost(m, j, it - 1);
      PrefixWithinShared(m[j].key, k, p);
    }
    MoveBack(m, p, right, it, q);
  }

  /** A prefix without the right, other than the root directory: step to its parent, strictly back. */
  lemma JumpToParent(m: Table, p: Path, right: Right, it: nat)
    requires Ordered(m) && AbsoluteKeys(m) && 0 < it && Pending(m, p, right, it)
    requires m[it - 1].key <= p && !right(m[it - 1].value) && m[it - 1].key != ROOT
    ensures var next := UpperBound(m, Probe(p, |m[it - 1].key| - 1));
            next < it && Pending(m, p, right, next)
  {
    var k := m[it - 1].key;
    ParentFirst(k, p);
    forall j | 0 <= j < |m| && Grants(m, j, p, right)
      ensures m[j].key <= p[..|k| - 1]
    {
      OrderedAtMost(m, j, it - 1);
      if m[j].key == k {
        KeysDistinct(m, j, it - 1);
      }
      ShorterPrefix(m[j].key, k, p);
    }
    MoveBack(m, p, right, it, p[..|k| - 1]);
  }

  /** The root directory without the right: it is the first entry, and nothing is left to try. */
  lemma AtRoot(m: Table, p: Path, right: Right, it: nat)
    requires Ordered(m) && AbsoluteKeys(m) && 0 < it && Pending(m, p, right, it)
    requires m[it - 1].key == ROOT && !right(m[it - 1].value)
    ensures it == 1 && UpperBound(m, ROOT) == 1
    ensures forall j | 0 <= j < |m| :: !Grants(m, j, p, right)
  {
    PrefixFirst(ROOT, m[0].key);
    OrderedAtMost(m, 0, it - 1);
    PathOrder(ROOT, m[0].key);
    KeysDistinct(m, 0, it - 1);
    UpperBoundSplits(m, ROOT, 0);
    if |m| > 1 {
      UpperBoundSplits(m, ROOT, 1);
    }
  }

  ghost predicate Hopeless(m: Table, p: Path, right: Right) {
    forall j | 0 <= j < |m| :: !Grants(m, j, p, right)
  }

  /** Where the next probe ends: before the last element of a rejected prefix, else at the mismatch. */
  function ProbeLength(key: Path, p: Path): (n: nat)
    requires ROOT <= key
    ensures n <= |p|
  {
    var n := Mismatch(key, p);
    if n == |key| then n - 1 else n
  }

  /** Any jump from an entry that does not grant: strictly back, or stuck at the root directory with nothing to find. */
  lemma Jump(m: Table, p: Path, right: Right, it: nat, n: nat, next: nat)
    requires Ordered(m) && AbsoluteKeys(m) && 0 < it && Pending(m, p, right, it)
    requires !Grants(m, it - 1, p, right)
    requires n == ProbeLength(m[it - 1].key, p) && next == UpperBound(m, Probe(p, n))
    ensures && Pending(m, p, right, next)
            && (next < it || (next == it == 1 && m[0].key == ROOT && Hopeless(m, p, right)))
  {
    var k := m[it - 1].key;
    if k <= p {
      MismatchIs(k, p, |k|);
      if k == ROOT {
        AtRoot(m, p, right, it);
      } else {
        ParentFirst(k, p);
        JumpToParent(m, p, right, it);
      }
    } else {
      assert k[..|k|] == k;
      JumpPastSibling(m, p, right, it);
    }
  }

  // ---------------------------------------------------------------- the search

  /** Entries are examined strictly backwards, except that the root directory can be met again. */
  predicate Backwards(m: Table, examined: seq<nat>) {
    && (forall i | 0 <= i < |examined| :: examined[i] < |m|)
    && (forall i, j | 0 <= i < j < |examined| ::
          examined[j] < examined[i] || (examined[j] == examined[i] == 0 && m[0].key == ROOT))
  }

  ghost predicate Trail(m: Table, examined: seq<nat>, it: nat) {
    && Backwards(m, examined)
    && (forall i | 0 <= i < |examined| :: it <= examined[i] || (examined[i] == 0 && it == 1 && m[0].key == ROOT))
  }

  lemma TrailGrows(m: Table, examined: seq<nat>, it: nat, next: nat)
    requires 0 < it <= |m| && Trail(m, examined, it)
    requires next < it || (next == it == 1 && m[0].key == ROOT)
    ensures Trail(m, examined + [it - 1], next)
  {}

  /**
   The loop.  `examined` records the entries it looked at: at most as many as the table has, and
   never one entry twice but the root directory, so the counter cuts off nothing that could still be found.
   */
  method Search(m: Table, path: Path, right: Right) returns (r: Option<Path>, ghost examined: seq<nat>)
    requires Ordered(m) && AbsoluteKeys(m)
    ensures r == LongestGrant(View(m), path, |path|, right)
    ensures |examined| <= |m| && Backwards(m, examined)
  {
    var it: nat := UpperBound(m, path);
    var failsafe: nat := |m|;
    examined := [];
    PendingAtStart(m, path, right);
    while it != 0
      invariant it <= |m| && Pending(m, path, right, it)
      invariant |examined| + failsafe == |m|
      invariant it > 0 ==> failsafe > 0
      // either enough is left of the counter, or nothing is left to find
      invariant it <= failsafe || (it == 1 && m[0].key == ROOT && Hopeless(m, path, right))
      invariant Trail(m, examined, it)
      decreases failsafe
    {
      it := it - 1;
      ghost var before := examined;
      examined := examined + [it];
      TrailGrows(m, before, it + 1, it);
      var key := m[it].key;
      var n := Mismatch(key, path);
      PrefixByMismatch(key, path);
      if n == |key| {
        if right(m[it].value) {
          PicksEntry(m, path, right, it);
          r := Some(m[it].value.realPath + path[n..]);
          return r, examined;
        }
        n := n - 1;
      }
      var next := UpperBound(m, Probe(path, n));
      Jump(m, path, right, it + 1, n, next);
      TrailGrows(m, before, it + 1, next);
      it := next;
      failsafe := failsafe - 1;
      if failsafe == 0 {
        break;
      }
    }
    PicksNothing(m, path, right);
    r := None;
  }

  lemma PendingAtStart(m: Table, p: Path, right: Right)
    requires Ordered(m)
    ensures Pending(m, p, right, UpperBound(m, p))
  {
    forall j | 0 <= j < |m| && Grants(m, j, p, right)
      ensures j < UpperBound(m, p)
    {
      PrefixFirst(m[j].key, p);
      UpperBoundSplits(m, p, j);
    }
  }

  // ---------------------------------------------------------------- on strings

  predicate NormalReals(m: Table) {
    forall i | 0 <= i < |m| :: IsNormal(m[i].value.realPath)
  }

  /**
   The whole function: resolve the name against the working directory, search, and replace the name by
   the real path on success.  A name that stays relative is never allowed.
   */
  method LookupAllowedPath(pathIn: string, cwd: string, m: Table, right: Right)
    returns (found: bool, pathOut: string)
    requires Ordered(m) && AbsoluteKeys(m) && NormalReals(m)
    ensures var r := LongestGrant(View(m), Resolve(pathIn, cwd), |Resolve(pathIn, cwd)|, right);
            && found == r.Some?
            && (r.Some? ==> IsNormal(r.value) && pathOut == Render(r.value))
            && (r.None? ==> pathOut == pathIn)
    ensures !Parse(pathIn).rooted && !Parse(cwd).rooted ==> !found
  {
    var path := Resolve(pathIn, cwd);
    if !Parse(pathIn).rooted && !Parse(cwd).rooted {
      ResolveIsRelative(pathIn, cwd);
    } else {
      ResolveIsNormal(pathIn, cwd);
    }
    GrantedIsNormal(m, path, right);
    ghost var examined;
    var r;
    r, examined := Search(m, path, right);
    match r {
      case None => found, pathOut := false, pathIn;
      case Some(target) => found, pathOut := true, Render(target);
    }
  }

  /** Whatever is granted is a normal path below the real path of the matched entry. */
  lemma GrantedIsNormal(m: Table, p: Path, right: Right)
    requires Ordered(m) && AbsoluteKeys(m) && NormalReals(m)
    requires ROOT <= p ==> IsNormal(p)
    ensures var r := LongestGrant(View(m), p, |p|, right);
            r.Some? ==> ROOT <= p && IsNormal(r.value) &&
                        exists i | 0 <= i < |m| :: Grants(m, i, p, right) && r.value == m[i].value.realPath + p[|m[i].key|..]
  {
    if i :| 0 <= i < |m| && Grants(m, i, p, right) {
      var last := LastGrant(m, p, right, i);
      PicksEntry(m, p, right, last);
      GraftIsNormal(m[last].value.realPath, p, |m[last].key|);
    } else {
      PicksNothing(m, p, right);
    }
  }

  /** Names taken from one normal path may follow another. */
  lemma GraftIsNormal(target: Path, p: Path, n: nat)
    requires IsNormal(target) && IsNormal(p) && 0 < n <= |p|
    ensures IsNormal(target + p[n..])
  {
    var out := target + p[n..];
    forall t | 1 <= t < |out|
      ensures FileName(out[t])
    {
      if t < |target| {
        assert out[t] == target[t];
      } else {
        assert out[t] == p[n + t - |target|];
      }
    }
  }

  lemma LastGrant(m: Table, p: Path, right: Right, i: nat) returns (last: nat)
    requires i < |m| && Grants(m, i, p, right)
    ensures last < |m| && Grants(m, last, p, right)
    ensures forall j | 0 <= j < |m| && Grants(m, j, p, right) :: j <= last
    decreases |m| - i
  {
    if j :| i < j < |m| && Grants(m, j, p, right) {
      last := LastGrant(m, p, right, j);
    } else {
      last := i;
    }
  }
}

/**
 Lexical normalisation as the path lookup and the path table use it:
 `(path / "").lexically_normal().parent_path()`, after a relative path has been put behind the
 working directory (src/vm.cpp:70-74, src/config.cpp:246-253).

 `Canonical` is a one-pass stack machine.  The normal form it must agree with is the rewriting in
 [fs.path.generic] of ISO C++20: drop every dot, then drop names followed by dot-dot as long as any
 appear, then drop the remaining dot-dots of a rooted path.
 */
module Normalize {
  import opened Paths
  import Split

  const DOT := "."
  const DOTDOT := ".."
  const EMPTY := ""
  const SLASH := "/"

  /** A path as written: is there a root directory, and which file names follow. */
  datatype Raw = Raw(rooted: bool, names: seq<string>)

  function Without(names: seq<string>, x: string): (r: seq<string>)
    ensures forall n | n in r :: n in names && n != x
  {
    if names == [] then []
    else (if names[0] == x then [] else [names[0]]) + Without(names[1..], x)
  }

  /** Empty parts come from doubled and trailing separators, and say nothing. */
  function Parse(s: string): (p: Raw)
    ensures forall n | n in p.names :: n != [] && '/' !in n
  {
    Split.JoinOfPieces(s, '/');
    Raw(s != [] && s[0] == '/', Without(Split.Pieces(s, '/'), EMPTY))
  }

  /** `base / p`. */
  function Append(base: Raw, p: Raw): Raw {
    if p.rooted then p else Raw(base.rooted, base.names + p.names)
  }

  predicate Plain(n: string) {
    n != DOT && n != DOTDOT
  }

  function Push(st: seq<string>, rooted: bool, n: string): seq<string> {
    if n == DOT then st
    else if n == DOTDOT then
      if st != [] && st[|st| - 1] != DOTDOT then st[..|st| - 1]
      else if rooted then st
      else st + [n]
    else st + [n]
  }

  function Reduce(st: seq<string>, rooted: bool, names: seq<string>): seq<string>
    decreases |names|
  {
    if names == [] then st else Reduce(Push(st, rooted, names[0]), rooted, names[1..])
  }

  function Names(st: seq<string>): (p: Path)
    ensures |p| == |st| && forall i | 0 <= i < |p| :: p[i] == Name(st[i])
  {
    seq(|st|, i requires 0 <= i < |st| => Name(st[i]))
  }

  /**
   `(p / "").lexically_normal().parent_path()`.  A relative path that ends in dot-dot has its trailing
   separator removed by the normal form, so `parent_path` takes that dot-dot away.
   */
  function Canonical(p: Raw): Path {
    var st := Reduce([], p.rooted, p.names);
    if p.rooted then ROOT + Names(st)
    else if st != [] && st[|st| - 1] == DOTDOT then Names(st[..|st| - 1])
    else Names(st)
  }

  /** What the lookup searches for when the guest names `path` in directory `cwd`. */
  function Resolve(path: string, cwd: string): Path {
    var p := Parse(path);
    Canonical(if p.rooted then p else Append(Parse(cwd), p))
  }

  function Render(p: Path): string
    requires IsNormal(p)
  {
    "/" + Split.Join(Strings(p[1..]), '/')
  }

  function Strings(p: Path): (names: seq<string>)
    requires forall i | 0 <= i < |p| :: p[i].Name?
    ensures |names| == |p| && forall i | 0 <= i < |p| :: names[i] == p[i].name
  {
    seq(|p|, i requires 0 <= i < |p| => p[i].name)
  }

  predicate FileName(e: Elem) {
    e.Name? && e.name != [] && '/' !in e.name && Plain(e.name)
  }

  /** Absolute, no empty name, no separator inside a name, no dot and no dot-dot. */
  predicate IsNormal(p: Path) {
    p != [] && p[0] == Root && forall i | 1 <= i < |p| :: FileName(p[i])
  }

  // ---------------------------------------------------------------- the stack machine

  /** Nothing left to rewrite: plain names, behind a block of dot-dots when the path is relative. */
  predicate Irreducible(st: seq<string>, rooted: bool) {
    && (forall i | 0 <= i < |st| :: st[i] != DOT)
    && (rooted ==> forall i | 0 <= i < |st| :: st[i] != DOTDOT)
    && (forall i | 0 <= i < |st| - 1 :: st[i + 1] == DOTDOT ==> st[i] == DOTDOT)
  }

  lemma {:induction false} ReduceAppend(st: seq<string>, rooted: bool, a: seq<string>, b: seq<string>)
    ensures Reduce(st, rooted, a + b) == Reduce(Reduce(st, rooted, a), rooted, b)
    decreases |a|
  {
    if a == [] {
      assert a + b == b;
    } else {
      assert (a + b)[0] == a[0] && (a + b)[1..] == a[1..] + b;
      ReduceAppend(Push(st, rooted, a[0]), rooted, a[1..], b);
    }
  }

  lemma {:induction false} ReduceIrreducible(st: seq<string>, rooted: bool, names: seq<string>)
    requires Irreducible(st, rooted)
    ensures Irreducible(Reduce(st, rooted, names), rooted)
    ensures forall n | n in Reduce(st, rooted, names) :: n in st || n in names
    decreases |names|
  {
    if names != [] {
      ReduceIrreducible(Push(st, rooted, names[0]), rooted, names[1..]);
    }
  }

  lemma {:induction false} ReduceFixed(st: seq<string>, rooted: bool, names: seq<string>)
    requires Irreducible(st + names, rooted)
    ensures Reduce(st, rooted, names) == st + names
    decreases |names|
  {
    if names == [] {
      assert st + names == st;
    } else {
      var all := st + names;
      assert all[|st|] == names[0];
      if st != [] {
        assert all[|st| - 1] == st[|st| - 1];
      }
      assert Push(st, rooted, names[0]) == st + [names[0]];
      assert (st + [names[0]]) + names[1..] == all;
      ReduceFixed(st + [names[0]], rooted, names[1..]);
    }
  }

  /** Normalisation is idempotent, and normalising the directory part first changes nothing. */
  lemma ReduceCompose(rooted: bool, a: seq<string>, b: seq<string>)
    ensures Reduce([], rooted, Reduce([], rooted, a)) == Reduce([], rooted, a)
    ensures Reduce([], rooted, Reduce([], rooted, a) + b) == Reduce([], rooted, a + b)
  {
    var ra := Reduce([], rooted, a);
    ReduceIrreducible([], rooted, a);
    assert [] + ra == ra;
    ReduceFixed([], rooted, ra);
    ReduceAppend([], rooted, ra, b);
    ReduceAppend([], rooted, a, b);
  }

  // ---------------------------------------------------------------- the rewriting of the standard

  /** A name at `i` that is not dot-dot, followed by dot-dot. */
  predicate Redex(names: seq<string>, i: int) {
    0 <= i < |names| - 1 && names[i] != DOTDOT && names[i + 1] == DOTDOT
  }

  /** `run` removes such pairs one at a time, in any order, until none is left. */
  ghost predicate PairRemovals(run: seq<seq<string>>, at: seq<nat>) {
    && |run| == |at| + 1
    && (forall k | 0 <= k < |at| :: Redex(run[k], at[k]) && run[k + 1] == run[k][..at[k]] + run[k][at[k] + 2..])
    && (forall i :: !Redex(run[|at|], i))
  }

  /** There is always a way to the end. */
  lemma {:induction false} RemovalsEnd(names: seq<string>) returns (run: seq<seq<string>>, at: seq<nat>)
    ensures PairRemovals(run, at) && run[0] == names
    decreases |names|
  {
    run, at := [names], [];
    if i :| Redex(names, i) {
      var r, a := RemovalsEnd(names[..i] + names[i + 2..]);
      run, at := [names] + r, [i] + a;
      assert forall k | 1 <= k < |run| :: run[k] == r[k - 1];
      assert forall k | 1 <= k < |at| :: at[k] == a[k - 1];
    }
  }

  lemma {:induction false} WithoutDots(st: seq<string>, rooted: bool, names: seq<string>)
    ensures Reduce(st, rooted, Without(names, DOT)) == Reduce(st, rooted, names)
    decreases |names|
  {
    if names != [] {
      var rest := Without(names[1..], DOT);
      if names[0] == DOT {
        assert [] + rest == rest;
      } else {
        assert ([names[0]] + rest)[1..] == rest;
      }
      WithoutDots(Push(st, rooted, names[0]), rooted, names[1..]);
    }
  }

  lemma RemovalKeepsMeaning(rooted: bool, names: seq<string>, i: nat)
    requires DOT !in names && Redex(names, i)
    ensures Reduce([], rooted, names) == Reduce([], rooted, names[..i] + names[i + 2..])
    ensures DOT !in names[..i] + names[i + 2..]
  {
    var a, n, b := names[..i], names[i], names[i + 2..];
    assert n in names;
    assert names == a + ([n, DOTDOT] + b);
    var st := Reduce([], rooted, a);
    ReduceAppend([], rooted, a, [n, DOTDOT] + b);
    ReduceAppend([], rooted, a, b);
    ReduceAppend(st, rooted, [n, DOTDOT], b);
    var one := Push(st, rooted, n);
    assert one == st + [n];
    assert [n, DOTDOT][1..] == [DOTDOT] && [DOTDOT][1..] == [];
    assert Reduce(one, rooted, [DOTDOT]) == Reduce(Push(one, rooted, DOTDOT), rooted, []);
    assert Push(one, rooted, DOTDOT) == st;
  }

  /** With no pair left, what remains is dot-dots and then plain names. */
  lemma {:induction false} NoPairLeft(st: seq<string>, rooted: bool, names: seq<string>)
    requires DOT !in names && forall i :: !Redex(names, i)
    requires if rooted then DOTDOT !in st else forall n | n in st :: n == DOTDOT
    requires rooted && st != [] ==> DOTDOT !in names
    ensures Reduce(st, rooted, names) == st + if rooted then Without(names, DOTDOT) else names
    decreases |names|
  {
    if names == [] {
      assert st + [] == st;
    } else {
      var rest := names[1..];
      assert forall i :: Redex(rest, i) ==> Redex(names, i + 1);
      assert forall i :: !Redex(rest, i);
      assert names == [names[0]] + rest;
      if names[0] == DOTDOT {
        assert rooted ==> st == [];
        if rooted {
          NoPairLeft(st, rooted, rest);
          assert Without(names, DOTDOT) == Without(rest, DOTDOT);
        } else {
          assert st != [] ==> st[|st| - 1] in st;
          assert Push(st, rooted, DOTDOT) == st + [DOTDOT];
          NoPairLeft(st + [DOTDOT], rooted, rest);
          assert st + [DOTDOT] + rest == st + names;
        }
      } else {
        NoDotDotAfterName(names);
        PlainTail(st, rooted, names);
        WithoutAbsent(names, DOTDOT);
      }
    }
  }

  lemma {:induction false} PlainTail(st: seq<string>, rooted: bool, names: seq<string>)
    requires DOT !in names && DOTDOT !in names
    ensures Reduce(st, rooted, names) == st + names
    decreases |names|
  {
    if names == [] {
      assert st + names == st;
    } else {
      PlainTail(st + [names[0]], rooted, names[1..]);
      assert st + [names[0]] + names[1..] == st + names;
    }
  }

  lemma {:induction false} NoDotDotAfterName(names: seq<string>)
    requires names != [] && names[0] != DOTDOT && forall i :: !Redex(names, i)
    ensures DOTDOT !in names
  {
    if |names| > 1 {
      assert !Redex(names, 0);
      var rest := names[1..];
      assert forall i :: Redex(rest, i) ==> Redex(names, i + 1);
      NoDotDotAfterName(rest);
    }
  }

  lemma {:induction false} WithoutAbsent(names: seq<string>, x: string)
    requires x !in names
    ensures Without(names, x) == names
  {
    if names != [] {
      WithoutAbsent(names[1..], x);
      assert names == [names[0]] + names[1..];
    }
  }

  /**
   The stack machine computes the normal form of the standard: drop the dots, remove pairs in whatever
   order, and for a rooted path drop the dot-dots that are left.
   */
  lemma ReduceIsNormalForm(rooted: bool, names: seq<string>, run: seq<seq<string>>, at: seq<nat>)
    requires PairRemovals(run, at) && run[0] == Without(names, DOT)
    ensures var last := run[|at|];
            Reduce([], rooted, names) == if rooted then Without(last, DOTDOT) else last
  {
    WithoutDots([], rooted, names);
    AlongRemovals(rooted, run, at, |at|);
    var last := run[|at|];
    NoPairLeft([], rooted, last);
    assert [] + last == last && [] + Without(last, DOTDOT) == Without(last, DOTDOT);
  }

  lemma {:induction false} AlongRemovals(rooted: bool, run: seq<seq<string>>, at: seq<nat>, k: nat)
    requires PairRemovals(run, at) && k <= |at| && DOT !in run[0]
    ensures DOT !in run[k] && Reduce([], rooted, run[0]) == Reduce([], rooted, run[k])
  {
    if k > 0 {
      AlongRemovals(rooted, run, at, k - 1);
      RemovalKeepsMeaning(rooted, run[k - 1], at[k - 1]);
    }
  }

  // ---------------------------------------------------------------- strings

  /** A path that has a root directory, or is put behind one that has, resolves to a normal path. */
  lemma ResolveIsNormal(path: string, cwd: string)
    requires Parse(path).rooted || Parse(cwd).rooted
    ensures IsNormal(Resolve(path, cwd))
  {
    var p := Parse(path);
    var q := if p.rooted then p else Append(Parse(cwd), p);
    RootedIsNormal(q.names);
    assert Resolve(path, cwd) == ROOT + Names(Reduce([], true, q.names));
  }

  lemma RootedIsNormal(names: seq<string>)
    requires forall n | n in names :: n != [] && '/' !in n
    ensures IsNormal(ROOT + Names(Reduce([], true, names)))
  {
    ReduceIrreducible([], true, names);
    var st := Reduce([], true, names);
    forall i | 1 <= i < |ROOT + Names(st)|
      ensures FileName((ROOT + Names(st))[i])
    {
      assert st[i - 1] in st;
    }
  }

  /** Only a relative path in a relative directory stays relative. */
  lemma ResolveIsRelative(path: string, cwd: string)
    requires !Parse(path).rooted && !Parse(cwd).rooted
    ensures !(ROOT <= Resolve(path, cwd))
  {
    var p := Resolve(path, cwd);
    assert p != [] ==> p[0].Name?;
  }

  /** Writing a normal path and reading it back gives the path. */
  lemma ParseOfRender(p: Path)
    requires IsNormal(p)
    ensures Parse(Render(p)) == Raw(true, Strings(p[1..]))
  {
    var names := Strings(p[1..]);
    assert forall i | 0 <= i < |names| :: FileName(p[1..][i]);
    if names == [] {
      assert Render(p) == SLASH + Split.Join([EMPTY], '/');
      ParseRooted([EMPTY]);
    } else {
      ParseRooted(names);
      WithoutAbsent(names, EMPTY);
    }
  }

  /** What is written between separators are the file names, but for empty parts. */
  lemma ParseOfJoin(parts: seq<string>)
    requires parts != [] && Split.Free(parts, '/')
    ensures var s := Split.Join(parts, '/');
            Parse(s) == Raw(s != [] && s[0] == '/', Without(parts, EMPTY))
  {
    Split.PiecesOfJoin(parts, '/');
  }

  lemma ParseRooted(parts: seq<string>)
    requires parts != [] && Split.Free(parts, '/')
    ensures Parse(SLASH + Split.Join(parts, '/')) == Raw(true, Without(parts, EMPTY))
  {
    var all := [EMPTY] + parts;
    assert all[1..] == parts;
    assert Split.Join(all, '/') == SLASH + Split.Join(parts, '/');
    ParseOfJoin(all);
  }

  /** The names of a normal path are as they should be. */
  lemma NormalNames(p: Path)
    requires IsNormal(p)
    ensures var names := Strings(p[1..]); Reduce([], true, names) == names && ROOT + Names(names) == p
  {
    var names := Strings(p[1..]);
    forall i | 0 <= i < |names|
      ensures names[i] != DOT && names[i] != DOTDOT
    {
      assert FileName(p[1..][i]);
    }
    PlainTail([], true, names);
    assert [] + names == names;
    assert forall i | 0 <= i < |names| :: p[1 + i] == Name(names[i]);
  }

  /** Resolving a path twice, through its printed form, is the same as resolving it once. */
  lemma ResolveIdempotent(p: Path, cwd: string)
    requires IsNormal(p)
    ensures Resolve(Render(p), cwd) == p
  {
    ParseOfRender(p);
    NormalNames(p);
    assert Canonical(Raw(true, Strings(p[1..]))) == p;
  }

  /** Normalising the working directory first does not change what a name in it means. */
  lemma ResolveThroughDirectory(path: string, cwd: string)
    requires !Parse(path).rooted && Parse(cwd).rooted
    ensures IsNormal(Resolve(cwd, "/"))
    ensures Resolve(path, Render(Resolve(cwd, "/"))) == Resolve(path, cwd)
  {
    var dir := Resolve(cwd, "/");
    ResolveIsNormal(cwd, "/");
    ParseOfRender(dir);
    var st := Reduce([], true, Parse(cwd).names);
    assert Strings(dir[1..]) == st;
    ReduceCompose(true, Parse(cwd).names, Parse(path).names);
  }

  // ---------------------------------------------------------------- what a name in a directory means

  lemma {:induction false} WithoutAppend(a: seq<string>, b: seq<string>, x: string)
    ensures Without(a + b, x) == Without(a, x) + Without(b, x)
  {
    if a == [] {
      assert a + b == b;
    } else {
      assert (a + b)[0] == a[0] && (a + b)[1..] == a[1..] + b;
      WithoutAppend(a[1..], b, x);
    }
  }

  /**
   A relative name in an absolute directory means the names of the directory, then its own, rewritten as the standard
   has it in whatever order.  Empty parts stand for doubled and trailing separators.
   */
  lemma RelativeMeans(a: seq<string>, b: seq<string>, run: seq<seq<string>>, at: seq<nat>)
    requires a != [] && b != [] && Split.Free(a, '/') && Split.Free(b, '/')
    requires Split.Join(b, '/') == [] || Split.Join(b, '/')[0] != '/'
    requires PairRemovals(run, at) && run[0] == Without(Without(a + b, EMPTY), DOT)
    ensures Resolve(Split.Join(b, '/'), SLASH + Split.Join(a, '/')) == ROOT + Names(Without(run[|at|], DOTDOT))
  {
    ParseOfJoin(b);
    ParseRooted(a);
    WithoutAppend(a, b, EMPTY);
    var names := Without(a + b, EMPTY);
    ReduceIsNormalForm(true, names, run, at);
    var path, cwd := Split.Join(b, '/'), SLASH + Split.Join(a, '/');
    assert Append(Parse(cwd), Parse(path)) == Raw(true, names);
    assert Resolve(path, cwd) == Canonical(Raw(true, names));
  }

  /** An absolute name means the same in every directory. */
  lemma AbsoluteMeans(b: seq<string>, cwd: string, run: seq<seq<string>>, at: seq<nat>)
    requires b != [] && Split.Free(b, '/')
    requires PairRemovals(run, at) && run[0] == Without(Without(b, EMPTY), DOT)
    ensures Resolve(SLASH + Split.Join(b, '/'), cwd) == ROOT + Names(Without(run[|at|], DOTDOT))
  {
    ParseRooted(b);
    ReduceIsNormalForm(true, Without(b, EMPTY), run, at);
  }

  /** A relative name in a relative directory stays relative, and loses a dot-dot at its end. */
  lemma RelativeInRelative(a: seq<string>, b: seq<string>, run: seq<seq<string>>, at: seq<nat>)
    requires a != [] && b != [] && Split.Free(a, '/') && Split.Free(b, '/')
    requires Split.Join(a, '/') == [] || Split.Join(a, '/')[0] != '/'
    requires Split.Join(b, '/') == [] || Split.Join(b, '/')[0] != '/'
    requires PairRemovals(run, at) && run[0] == Without(Without(a + b, EMPTY), DOT)
    ensures var last := run[|at|];
            Resolve(Split.Join(b, '/'), Split.Join(a, '/')) ==
            Names(if last != [] && last[|last| - 1] == DOTDOT then last[..|last| - 1] else last)
  {
    ParseOfJoin(b);
    ParseOfJoin(a);
    WithoutAppend(a, b, EMPTY);
    var names := Without(a + b, EMPTY);
    ReduceIsNormalForm(false, names, run, at);
    var path, cwd := Split.Join(b, '/'), Split.Join(a, '/');
    assert Append(Parse(cwd), Parse(path)) == Raw(false, names);
    assert Resolve(path, cwd) == Canonical(Raw(false, names));
  }
}

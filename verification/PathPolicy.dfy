/**
 How the command line becomes the table of allowed paths (`ensure_path` and the option callback,
 src/config.cpp:240-277 and 421-485), and what the finished table allows.
 */
module PathPolicy {
  import opened Wrappers
  import opened Paths
  import opened PathTable
  import opened Normalize
  import opened Lookup
  import Split

  /** How `ensure_path` reads the paths it is given. */
  type Host = string -> Path

  ghost predicate Absolute(host: Host) {
    forall s :: IsNormal(host(s))
  }

  /** Names are taken relative to the working directory of the server and normalised, src/config.cpp:246-253. */
  function HostPaths(hostCwd: string): Host {
    s => Resolve(s, hostCwd)
  }

  /** A relative path is taken in the server's directory, as the rewriting of the standard has it. */
  lemma HostPathsMean(a: seq<string>, b: seq<string>, run: seq<seq<string>>, at: seq<nat>)
    requires a != [] && b != [] && Split.Free(a, '/') && Split.Free(b, '/')
    requires Split.Join(b, '/') == [] || Split.Join(b, '/')[0] != '/'
    requires PairRemovals(run, at) && run[0] == Without(Without(a + b, EMPTY), DOT)
    ensures HostPaths(SLASH + Split.Join(a, '/'))(Split.Join(b, '/')) == ROOT + Names(Without(run[|at|], DOTDOT))
  {
    RelativeMeans(a, b, run, at);
  }

  lemma HostPathsAbsolute(hostCwd: string)
    requires Parse(hostCwd).rooted
    ensures Absolute(HostPaths(hostCwd))
  {
    forall s
      ensures IsNormal(HostPaths(hostCwd)(s))
    {
      ResolveIsNormal(s, hostCwd);
    }
  }

  /** One call of `ensure_path`, after both of its paths have been made absolute and normal. */
  datatype Grant = Grant(key: Path, target: Path, readable: bool, writable: bool, symlink: bool)

  function MakeGrant(src: string, dst: string, host: Host, r: bool, w: bool, s: bool): Grant {
    Grant(host(src), host(dst), r, w, s)
  }

  /** The arguments of a call of `ensure_path`. */
  datatype Call = Call(src: string, dst: string, readable: bool, writable: bool, symlink: bool)

  function Resolved(calls: seq<Call>, host: Host): (gs: seq<Grant>)
    ensures |gs| == |calls|
  {
    if calls == [] then []
    else
      var c := calls[|calls| - 1];
      Resolved(calls[..|calls| - 1], host) + [MakeGrant(c.src, c.dst, host, c.readable, c.writable, c.symlink)]
  }

  lemma {:induction false} ResolvedAt(calls: seq<Call>, host: Host, i: nat)
    requires i < |calls|
    ensures var c := calls[i];
            Resolved(calls, host)[i] == MakeGrant(c.src, c.dst, host, c.readable, c.writable, c.symlink)
  {
    if i < |calls| - 1 {
      ResolvedAt(calls[..|calls| - 1], host, i);
    }
  }

  function Apply(v: map<Path, VirtualPath>, g: Grant): map<Path, VirtualPath> {
    if g.key !in v then v[g.key := VirtualPath(g.target, g.key, g.readable, g.writable, g.symlink)]
    else
      var was := v[g.key];
      v[g.key := was.(realPath := g.target, readable := was.readable || g.readable,
                      writable := was.writable || g.writable, symlink := was.symlink || g.symlink)]
  }

  function Fold(gs: seq<Grant>): map<Path, VirtualPath> {
    if gs == [] then map[] else Apply(Fold(gs[..|gs| - 1]), gs[|gs| - 1])
  }

  predicate GoodView(v: map<Path, VirtualPath>) {
    forall k | k in v :: IsNormal(k) && IsNormal(v[k].realPath) && v[k].virtualPath == k
  }

  // ---------------------------------------------------------------- what a sequence of grants means

  predicate Readable(v: VirtualPath) { v.readable }
  predicate Writable(v: VirtualPath) { v.writable }

  /** What the open callbacks ask of an entry. */
  function Asked(write: bool): Right {
    if write then Writable else Readable
  }

  predicate Confers(g: Grant, write: bool) {
    if write then g.writable else g.readable
  }

  predicate Mentions(gs: seq<Grant>, k: Path) {
    exists i | 0 <= i < |gs| :: gs[i].key == k
  }
  predicate GivesRight(gs: seq<Grant>, k: Path, write: bool) {
    exists i | 0 <= i < |gs| :: gs[i].key == k && Confers(gs[i], write)
  }
  predicate GivesSymlink(gs: seq<Grant>, k: Path) {
    exists i | 0 <= i < |gs| :: gs[i].key == k && gs[i].symlink
  }
  predicate LastTarget(gs: seq<Grant>, k: Path, target: Path) {
    exists i | 0 <= i < |gs| :: gs[i].key == k && gs[i].target == target && forall j | i < j < |gs| :: gs[j].key != k
  }

  /** Each key holds the union of the rights given to it and the last target. */
  lemma {:induction false} FoldMeans(gs: seq<Grant>, k: Path)
    ensures k in Fold(gs) <==> Mentions(gs, k)
    ensures k in Fold(gs) ==>
              var v := Fold(gs)[k];
              && (v.readable <==> GivesRight(gs, k, false))
              && (v.writable <==> GivesRight(gs, k, true))
              && (v.symlink <==> GivesSymlink(gs, k))
              && v.virtualPath == k
              && LastTarget(gs, k, v.realPath)
  {
    if gs != [] {
      var n := |gs| - 1;
      var init, g := gs[..n], gs[n];
      assert init + [g] == gs;
      FoldMeans(init, k);
      OneMore(init, g, k);
      if g.key == k {
        assert gs[n].key == k;
        assert LastTarget(gs, k, g.target);
      } else if k in Fold(init) {
        LastTargetKept(init, g, k, Fold(init)[k].realPath);
      }
    }
  }

  lemma OneMore(init: seq<Grant>, g: Grant, k: Path)
    ensures Mentions(init + [g], k) <==> Mentions(init, k) || g.key == k
    ensures forall write :: GivesRight(init + [g], k, write) <==> GivesRight(init, k, write) || (g.key == k && Confers(g, write))
    ensures GivesSymlink(init + [g], k) <==> GivesSymlink(init, k) || (g.key == k && g.symlink)
    ensures GivesRight(init, k, false) || GivesRight(init, k, true) || GivesSymlink(init, k) ==> Mentions(init, k)
  {
    var gs := init + [g];
    assert forall i | 0 <= i < |init| :: gs[i] == init[i];
    assert gs[|init|] == g;
  }

  lemma LastTargetKept(init: seq<Grant>, g: Grant, k: Path, target: Path)
    requires g.key != k && LastTarget(init, k, target)
    ensures LastTarget(init + [g], k, target)
  {
    var gs := init + [g];
    var i :| 0 <= i < |init| && init[i].key == k && init[i].target == target &&
             forall j | i < j < |init| :: init[j].key != k;
    assert gs[i] == init[i];
    assert forall j | i < j < |gs| :: gs[j].key != k;
  }

  /** Some grant gives the right on a prefix of the path. */
  predicate RightGranted(gs: seq<Grant>, p: Path, write: bool) {
    exists i | 0 <= i < |gs| :: gs[i].key <= p && Confers(gs[i], write)
  }

  function Granted(gs: seq<Grant>, p: Path, right: Right): Option<Path> {
    LongestGrant(Fold(gs), p, |p|, right)
  }

  /** A lookup in the folded table succeeds exactly when some call granted the right on a prefix. */
  lemma Decision(gs: seq<Grant>, p: Path, write: bool)
    ensures Granted(gs, p, Asked(write)).Some? <==> RightGranted(gs, p, write)
  {
    var v := Fold(gs);
    LongestGrantMeans(v, p, |p|, Asked(write));
    if RightGranted(gs, p, write) {
      var i :| 0 <= i < |gs| && gs[i].key <= p && Confers(gs[i], write);
      FoldMeans(gs, gs[i].key);
    } else {
      forall k | k in v && k <= p && |k| <= |p|
        ensures !Asked(write)(v[k])
      {
        FoldMeans(gs, k);
      }
    }
  }

  /** More grants, in any order, never take an access away; so the same grants in another order decide alike. */
  lemma GrantsOnlyAdd(gs: seq<Grant>, hs: seq<Grant>, p: Path, write: bool)
    requires forall i | 0 <= i < |gs| :: gs[i] in hs
    ensures Granted(gs, p, Asked(write)).Some? ==> Granted(hs, p, Asked(write)).Some?
    ensures (forall i | 0 <= i < |hs| :: hs[i] in gs) ==>
              (Granted(gs, p, Asked(write)).Some? <==> Granted(hs, p, Asked(write)).Some?)
  {
    Decision(gs, p, write);
    Decision(hs, p, write);
  }

  /** Where a granted access ends up: the last target of the longest key with the right, then the rest of the path. */
  lemma Target(gs: seq<Grant>, p: Path, k: Path, write: bool)
    requires k <= p && GivesRight(gs, k, write)
    requires forall i | 0 <= i < |gs| && gs[i].key <= p && Confers(gs[i], write) :: |gs[i].key| <= |k|
    ensures exists target | LastTarget(gs, k, target) :: Granted(gs, p, Asked(write)) == Some(target + p[|k|..])
  {
    var v := Fold(gs);
    FoldMeans(gs, k);
    assert Mentions(gs, k);
    forall k' | k' in v && k' <= p && |k'| <= |p| && Asked(write)(v[k'])
      ensures |k'| <= |k|
    {
      FoldMeans(gs, k');
      var i :| 0 <= i < |gs| && gs[i].key == k' && Confers(gs[i], write);
    }
    LongestGrantMeans(v, p, |p|, Asked(write));
    assert LastTarget(gs, k, v[k].realPath);
  }

  // ---------------------------------------------------------------- the table object

  lemma FoldOneMore(calls: seq<Call>, i: nat, host: Host)
    requires i < |calls|
    ensures var c := calls[i];
            Fold(Resolved(calls[..i + 1], host)) ==
            Apply(Fold(Resolved(calls[..i], host)), MakeGrant(c.src, c.dst, host, c.readable, c.writable, c.symlink))
  {
    assert calls[..i + 1][..i] == calls[..i];
    var gs := Resolved(calls[..i + 1], host);
    assert gs[..i] == Resolved(calls[..i], host);
  }

  lemma ApplyGood(v: map<Path, VirtualPath>, g: Grant)
    requires GoodView(v) && IsNormal(g.key) && IsNormal(g.target)
    ensures GoodView(Apply(v, g))
  {}

  lemma GoodTable(m: Table)
    requires Ordered(m) && GoodView(View(m))
    ensures AbsoluteKeys(m) && NormalReals(m)
  {
    forall i | 0 <= i < |m|
      ensures ROOT <= m[i].key && IsNormal(m[i].value.realPath)
    {
      ViewAt(m, i);
      assert IsNormal(m[i].key);
    }
  }

  class Configuration {
    var allowedPaths: Table

    ghost predicate Valid()
      reads this
    {
      Ordered(allowedPaths) && GoodView(View(allowedPaths))
    }

    constructor ()
      ensures Valid() && View(allowedPaths) == map[]
    {
      allowedPaths := [];
    }

    method EnsurePath(src: string, dst: string, host: Host, readable: bool, writable: bool, symlink: bool)
      requires Valid() && Absolute(host)
      modifies this
      ensures Valid()
      ensures View(allowedPaths) == Apply(old(View(allowedPaths)), MakeGrant(src, dst, host, readable, writable, symlink))
    {
      var key, target := host(src), host(dst);
      ApplyGood(View(allowedPaths), MakeGrant(src, dst, host, readable, writable, symlink));
      var it := Locate(allowedPaths, key);
      if it == |allowedPaths| {
        allowedPaths := Emplace(allowedPaths, Entry(key, VirtualPath(target, key, readable, writable, symlink)));
        return;
      }
      ViewAt(allowedPaths, it);
      var vpath := allowedPaths[it].value;
      vpath := vpath.(realPath := target);
      if readable {
        vpath := vpath.(readable := true);
      }
      if writable {
        vpath := vpath.(writable := true);
      }
      if symlink {
        vpath := vpath.(symlink := true);
      }
      allowedPaths := Assign(allowedPaths, it, vpath);
    }

    /** The table is what these calls of `ensure_path` left behind. */
    ghost predicate Holds(calls: seq<Call>, host: Host)
      reads this
    {
      Valid() && View(allowedPaths) == Fold(Resolved(calls, host))
    }

    method EnsureAll(calls: seq<Call>, host: Host)
      requires Absolute(host) && Holds([], host)
      modifies this
      ensures Holds(calls, host)
    {
      for i := 0 to |calls|
        invariant Holds(calls[..i], host)
      {
        var c := calls[i];
        EnsurePath(c.src, c.dst, host, c.readable, c.writable, c.symlink);
        FoldOneMore(calls, i, host);
      }
      assert calls[..|calls|] == calls;
    }

    /** The path part of the option callback: every call in order, unless a volume is malformed. */
    method Build(o: Options, host: Host) returns (r: Result<seq<Call>, Error>)
      requires Absolute(host) && Holds([], host)
      modifies this
      ensures r == CallsOf(o)
      ensures r.Success? ==> Holds(r.value, host)
      ensures r.Failure? <==> exists i :: FirstBad(o.volumes, i)
      ensures forall i | FirstBad(o.volumes, i) :: r == Failure(ParseVolume(o.volumes[i]).error)
    {
      VolumesFail(o.volumes);
      r := CallsOf(o);
      if r.Success? {
        EnsureAll(r.value, host);
      }
    }

    /** The open callbacks of every VM (src/vm.cpp:236-245, 333-342), which differ in the right they ask for. */
    method Open(path: string, cwd: string, write: bool, ghost gs: seq<Grant>) returns (allowed: bool, pathOut: string)
      requires Valid() && View(allowedPaths) == Fold(gs)
      ensures allowed <==> RightGranted(gs, Resolve(path, cwd), write)
      ensures !allowed ==> pathOut == path
      ensures allowed ==> Granted(gs, Resolve(path, cwd), Asked(write)).Some? &&
                          Resolve(pathOut, cwd) == Granted(gs, Resolve(path, cwd), Asked(write)).value
    {
      GoodTable(allowedPaths);
      Decision(gs, Resolve(path, cwd), write);
      allowed, pathOut := LookupAllowedPath(path, cwd, allowedPaths, Asked(write));
      if allowed {
        ResolveIdempotent(Granted(gs, Resolve(path, cwd), Asked(write)).value, cwd);
      }
    }
  }

  // ---------------------------------------------------------------- the options

  datatype Error = TooFewParts | TooManyParts | InvalidRights

  /** `mapsFile` and `guestLibrary` are the temporary files standing in for two guest paths. */
  datatype Options = Options(
    allowRead: seq<string>, allowWrite: seq<string>, volumes: seq<string>,
    mainFilename: string, mapsFile: string, guestLibrary: string)

  datatype Volume = Volume(src: string, dst: string, readable: bool, writable: bool)

  /** An optional `r`, then an optional `w`, then the end. */
  function ParseRights(perms: string): (r: Option<(bool, bool)>)
    ensures r.Some? <==> perms == "" || perms == "r" || perms == "w" || perms == "rw"
    ensures r.Some? ==> (r.value.0 <==> 'r' in perms) && (r.value.1 <==> 'w' in perms)
  {
    var readable := |perms| > 0 && perms[0] == 'r';
    var j := if readable then 1 else 0;
    var writable := |perms| > j && perms[j] == 'w';
    var k := if writable then j + 1 else j;
    assert k == |perms| ==> perms == (if readable then "r" else "") + (if writable then "w" else "");
    if k != |perms| then None else Some((readable, writable))
  }

  /**
   One `--volume` value.  The first part becomes the key that guest paths are matched with and the second
   one the real path, which is the reverse of what the help text of the option calls them.
   */
  function ParseVolume(triple: string): Result<Volume, Error> {
    VolumeOf(Split.Pieces(triple, ':'))
  }

  function VolumeOf(parts: seq<string>): Result<Volume, Error> {
    if |parts| < 2 then Failure(TooFewParts)
    else if |parts| == 2 then Success(Volume(parts[0], parts[1], true, false))
    else
      var rights := ParseRights(parts[2]);
      if rights.None? then Failure(InvalidRights)
      else if |parts| > 3 then Failure(TooManyParts)
      else Success(Volume(parts[0], parts[1], rights.value.0, rights.value.1))
  }

  predicate IsRights(perms: string) {
    perms == "" || perms == "r" || perms == "w" || perms == "rw"
  }

  /** What a volume of these parts is: key, real path, rights; and when it is none. */
  lemma VolumeMeans(parts: seq<string>)
    requires parts != [] && Split.Free(parts, ':')
    ensures var v := ParseVolume(Split.Join(parts, ':'));
            && (|parts| == 1 ==> v == Failure(TooFewParts))
            && (|parts| == 2 ==> v == Success(Volume(parts[0], parts[1], true, false)))
            && (|parts| >= 3 && !IsRights(parts[2]) ==> v == Failure(InvalidRights))
            && (|parts| > 3 && IsRights(parts[2]) ==> v == Failure(TooManyParts))
            && (|parts| == 3 && IsRights(parts[2]) ==>
                  v == Success(Volume(parts[0], parts[1], 'r' in parts[2], 'w' in parts[2])))
  {
    Split.PiecesOfJoin(parts, ':');
    assert ParseVolume(Split.Join(parts, ':')) == VolumeOf(parts);
  }

  function AllowCalls(paths: seq<string>, r: bool, w: bool): (calls: seq<Call>)
    ensures |calls| == |paths|
    ensures forall i | 0 <= i < |calls| :: calls[i] == Call(paths[i], paths[i], r, w, false)
  {
    if paths == [] then []
    else
      var n := |paths| - 1;
      AllowCalls(paths[..n], r, w) + [Call(paths[n], paths[n], r, w, false)]
  }

  const URANDOM := "/dev/urandom"
  const NULL_DEVICE := "/dev/null"
  const ZERO_DEVICE := "/dev/zero"
  const SELF_MAPS := "/proc/self/maps"
  const SELF_EXE := "/proc/self/exe"
  const GUEST_LIBRARY := "/lib/libkvmserverguest.so"

  function FixedCalls(o: Options): seq<Call> {
    [Call(URANDOM, URANDOM, true, false, true),
     Call(NULL_DEVICE, NULL_DEVICE, true, true, true),
     Call(ZERO_DEVICE, ZERO_DEVICE, true, true, true),
     Call(SELF_MAPS, o.mapsFile, true, false, false),
     Call(GUEST_LIBRARY, o.guestLibrary, true, false, false)]
  }

  function VolumeCall(v: Volume): Call {
    Call(v.src, v.dst, v.readable, v.writable, false)
  }

  function VolumeCalls(volumes: seq<string>): (r: Result<seq<Call>, Error>)
    ensures r.Success? ==> |r.value| == |volumes|
    ensures r.Success? ==> forall i | 0 <= i < |volumes| ::
              ParseVolume(volumes[i]).Success? && r.value[i] == VolumeCall(ParseVolume(volumes[i]).value)
  {
    if volumes == [] then Success([])
    else
      var n := |volumes| - 1;
      var calls :- VolumeCalls(volumes[..n]);
      var v :- ParseVolume(volumes[n]);
      Success(calls + [VolumeCall(v)])
  }

  /** Volume number `i` is the first that cannot be read. */
  predicate FirstBad(volumes: seq<string>, i: int) {
    && 0 <= i < |volumes| && ParseVolume(volumes[i]).Failure?
    && forall j | 0 <= j < i :: ParseVolume(volumes[j]).Success?
  }

  /** Volumes are rejected exactly if one of them is bad, and with the error of the first bad one. */
  lemma {:induction false} VolumesFail(volumes: seq<string>)
    ensures VolumeCalls(volumes).Failure? <==> exists i :: FirstBad(volumes, i)
    ensures forall i | FirstBad(volumes, i) :: VolumeCalls(volumes) == Failure(ParseVolume(volumes[i]).error)
  {
    if volumes != [] {
      var n := |volumes| - 1;
      var init := volumes[..n];
      VolumesFail(init);
      forall i
        ensures FirstBad(volumes, i) <==> FirstBad(init, i) || (i == n && VolumeCalls(init).Success? && ParseVolume(volumes[n]).Failure?)
      {
        assert forall j | 0 <= j < n :: init[j] == volumes[j];
      }
      if VolumeCalls(init).Failure? {
        var i :| FirstBad(init, i);
        assert FirstBad(volumes, i);
      } else if ParseVolume(volumes[n]).Failure? {
        assert FirstBad(volumes, n);
      }
    }
  }

  function ProgramCalls(o: Options): seq<Call> {
    [Call(SELF_EXE, o.mainFilename, false, false, true),
     Call(o.mainFilename, o.mainFilename, true, false, false)]
  }

  /** Every `ensure_path` call of a configuration, in order; the first bad volume stops it. */
  function CallsOf(o: Options): Result<seq<Call>, Error> {
    var volumes :- VolumeCalls(o.volumes);
    Success(AllowCalls(o.allowRead, true, false) + AllowCalls(o.allowWrite, false, true)
            + FixedCalls(o) + volumes + ProgramCalls(o))
  }

  // ---------------------------------------------------------------- end to end

  predicate Carries(c: Call, write: bool) {
    if write then c.writable else c.readable
  }

  predicate Gives(calls: seq<Call>, host: Host, p: Path, write: bool) {
    exists i | 0 <= i < |calls| :: Carries(calls[i], write) && host(calls[i].src) <= p
  }

  lemma GivesMeans(calls: seq<Call>, host: Host, p: Path, write: bool)
    ensures Gives(calls, host, p, write) <==> RightGranted(Resolved(calls, host), p, write)
  {
    var gs := Resolved(calls, host);
    forall i | 0 <= i < |calls|
      ensures gs[i].key == host(calls[i].src) && Confers(gs[i], write) == Carries(calls[i], write)
    {
      ResolvedAt(calls, host, i);
    }
  }

  lemma GivesAppend(a: seq<Call>, b: seq<Call>, host: Host, p: Path, write: bool)
    ensures Gives(a + b, host, p, write) <==> Gives(a, host, p, write) || Gives(b, host, p, write)
  {
    var c := a + b;
    assert forall i | 0 <= i < |a| :: c[i] == a[i];
    assert forall i | 0 <= i < |b| :: c[|a| + i] == b[i];
    assert forall i | |a| <= i < |c| :: c[i] == b[i - |a|];
  }

  /** The paths that every configuration lets a guest read, and the two it may write. */
  predicate FixedPath(host: Host, p: Path, write: bool) {
    || host(NULL_DEVICE) <= p
    || host(ZERO_DEVICE) <= p
    || (!write && (host(URANDOM) <= p || host(SELF_MAPS) <= p || host(GUEST_LIBRARY) <= p))
  }

  predicate VolumeAllows(volumes: seq<string>, host: Host, p: Path, write: bool) {
    exists i | 0 <= i < |volumes| ::
      var v := ParseVolume(volumes[i]);
      v.Success? && (if write then v.value.writable else v.value.readable) && host(v.value.src) <= p
  }

  predicate ListAllows(paths: seq<string>, host: Host, p: Path) {
    exists i | 0 <= i < |paths| :: host(paths[i]) <= p
  }

  /**
   The policy of a command line.  A path may be read when it lies under an `--allow-read` path, a readable
   volume, the program itself or one of the fixed entries, and written when it lies under an
   `--allow-write` path, a writable volume or one of the two writable devices; otherwise it may not.
   */
  lemma CommandLinePolicy(o: Options, host: Host, p: Path)
    requires CallsOf(o).Success?
    ensures var gs := Resolved(CallsOf(o).value, host);
            && (Granted(gs, p, Asked(false)).Some? <==>
                  || ListAllows(o.allowRead, host, p)
                  || VolumeAllows(o.volumes, host, p, false)
                  || FixedPath(host, p, false)
                  || host(o.mainFilename) <= p)
            && (Granted(gs, p, Asked(true)).Some? <==>
                  || ListAllows(o.allowWrite, host, p)
                  || VolumeAllows(o.volumes, host, p, true)
                  || FixedPath(host, p, true))
  {
    var calls := CallsOf(o).value;
    forall write
      ensures Granted(Resolved(calls, host), p, Asked(write)).Some? <==> Gives(calls, host, p, write)
    {
      Decision(Resolved(calls, host), p, write);
      GivesMeans(calls, host, p, write);
    }
    CallsGive(o, host, p, false);
    CallsGive(o, host, p, true);
  }

  lemma CallsGive(o: Options, host: Host, p: Path, write: bool)
    requires CallsOf(o).Success?
    ensures Gives(CallsOf(o).value, host, p, write) <==>
              || ListAllows(if write then o.allowWrite else o.allowRead, host, p)
              || VolumeAllows(o.volumes, host, p, write)
              || FixedPath(host, p, write)
              || (!write && host(o.mainFilename) <= p)
  {
    var r, w, f := AllowCalls(o.allowRead, true, false), AllowCalls(o.allowWrite, false, true), FixedCalls(o);
    var v, m := VolumeCalls(o.volumes).value, ProgramCalls(o);
    GivesAppend(r, w, host, p, write);
    GivesAppend(r + w, f, host, p, write);
    GivesAppend(r + w + f, v, host, p, write);
    GivesAppend(r + w + f + v, m, host, p, write);
    AllowCallsGive(o.allowRead, true, false, host, p, write);
    AllowCallsGive(o.allowWrite, false, true, host, p, write);
    FixedCallsGive(o, host, p, write);
    VolumeCallsGive(o.volumes, host, p, write);
    ProgramCallsGive(o, host, p, write);
  }

  lemma AllowCallsGive(paths: seq<string>, r: bool, w: bool, host: Host, p: Path, write: bool)
    ensures Gives(AllowCalls(paths, r, w), host, p, write) <==> (if write then w else r) && ListAllows(paths, host, p)
  {}

  lemma FixedCallsGive(o: Options, host: Host, p: Path, write: bool)
    ensures Gives(FixedCalls(o), host, p, write) <==> FixedPath(host, p, write)
  {
    var f := FixedCalls(o);
    assert f[0].src == URANDOM && f[1].src == NULL_DEVICE && f[2].src == ZERO_DEVICE;
    assert f[3].src == SELF_MAPS && f[4].src == GUEST_LIBRARY;
  }

  lemma VolumeCallsGive(volumes: seq<string>, host: Host, p: Path, write: bool)
    requires VolumeCalls(volumes).Success?
    ensures Gives(VolumeCalls(volumes).value, host, p, write) <==> VolumeAllows(volumes, host, p, write)
  {}

  lemma ProgramCallsGive(o: Options, host: Host, p: Path, write: bool)
    ensures Gives(ProgramCalls(o), host, p, write) <==> !write && host(o.mainFilename) <= p
  {
    var f := ProgramCalls(o);
    assert f[0].src == SELF_EXE && f[1].src == o.mainFilename;
  }

  // ---------------------------------------------------------------- where accesses go

  /** Where in the list of calls the one for volume number `i` is. */
  function VolumeIndex(o: Options, i: nat): nat {
    |o.allowRead| + |o.allowWrite| + 5 + i
  }

  lemma Laid(r: seq<Call>, w: seq<Call>, f: seq<Call>, v: seq<Call>, m: seq<Call>, i: nat)
    ensures var all := r + w + f + v + m;
            && |all| == |r| + |w| + |f| + |v| + |m|
            && (i < |r| ==> all[i] == r[i])
            && (i < |w| ==> all[|r| + i] == w[i])
            && (i < |f| ==> all[|r| + |w| + i] == f[i])
            && (i < |v| ==> all[|r| + |w| + |f| + i] == v[i])
            && (i < |m| ==> all[|r| + |w| + |f| + |v| + i] == m[i])
  {}

  /** Which calls are made, in which order: those of the two lists, ... */
  lemma ListCalls(o: Options, i: nat)
    requires CallsOf(o).Success?
    ensures var calls := CallsOf(o).value;
            && |calls| == VolumeIndex(o, |o.volumes|) + 2
            && (i < |o.allowRead| ==> calls[i] == Call(o.allowRead[i], o.allowRead[i], true, false, false))
            && (i < |o.allowWrite| ==> calls[|o.allowRead| + i] == Call(o.allowWrite[i], o.allowWrite[i], false, true, false))
  {
    var r, w, f := AllowCalls(o.allowRead, true, false), AllowCalls(o.allowWrite, false, true), FixedCalls(o);
    Laid(r, w, f, VolumeCalls(o.volumes).value, ProgramCalls(o), i);
  }

  /** ... the devices and the two files that stand in for others, ... */
  lemma FixedTargets(o: Options, i: nat)
    requires CallsOf(o).Success? && i < 5
    ensures var call := CallsOf(o).value[|o.allowRead| + |o.allowWrite| + i];
            && call.src == [URANDOM, NULL_DEVICE, ZERO_DEVICE, SELF_MAPS, GUEST_LIBRARY][i]
            && call.dst == [URANDOM, NULL_DEVICE, ZERO_DEVICE, o.mapsFile, o.guestLibrary][i]
            && call.readable && (call.writable <==> i == 1 || i == 2) && (call.symlink <==> i <= 2)
  {
    ListCalls(o, i);
    var r, w, f := AllowCalls(o.allowRead, true, false), AllowCalls(o.allowWrite, false, true), FixedCalls(o);
    Laid(r, w, f, VolumeCalls(o.volumes).value, ProgramCalls(o), i);
  }

  /** ... the volumes, ... */
  lemma VolumeCallAt(o: Options, i: nat)
    requires CallsOf(o).Success? && i < |o.volumes|
    ensures ParseVolume(o.volumes[i]).Success? && VolumeIndex(o, i) < |CallsOf(o).value|
    ensures var v := ParseVolume(o.volumes[i]).value;
            CallsOf(o).value[VolumeIndex(o, i)] == Call(v.src, v.dst, v.readable, v.writable, false)
  {
    var r, w, f := AllowCalls(o.allowRead, true, false), AllowCalls(o.allowWrite, false, true), FixedCalls(o);
    Laid(r, w, f, VolumeCalls(o.volumes).value, ProgramCalls(o), i);
  }

  /** ... and the program. */
  lemma ProgramTargets(o: Options)
    requires CallsOf(o).Success?
    ensures var calls := CallsOf(o).value;
            && |calls| >= 2 && calls[|calls| - 2] == Call(SELF_EXE, o.mainFilename, false, false, true)
            && calls[|calls| - 1] == Call(o.mainFilename, o.mainFilename, true, false, false)
  {
    var r, w, f := AllowCalls(o.allowRead, true, false), AllowCalls(o.allowWrite, false, true), FixedCalls(o);
    Laid(r, w, f, VolumeCalls(o.volumes).value, ProgramCalls(o), 0);
    Laid(r, w, f, VolumeCalls(o.volumes).value, ProgramCalls(o), 1);
  }

  /** Call number `k` has the right, is the last on its key, and no longer key of the path has the right. */
  predicate Decides(calls: seq<Call>, host: Host, p: Path, write: bool, k: nat) {
    && k < |calls| && Carries(calls[k], write) && host(calls[k].src) <= p
    && (forall j | k < j < |calls| :: host(calls[j].src) != host(calls[k].src))
    && (forall j | 0 <= j < |calls| && Carries(calls[j], write) && host(calls[j].src) <= p ::
          |host(calls[j].src)| <= |host(calls[k].src)|)
  }

  /** An access goes to the real path of the call that decides, followed by the rest of the path. */
  lemma CallTarget(calls: seq<Call>, host: Host, p: Path, write: bool, k: nat)
    requires Decides(calls, host, p, write, k)
    ensures Granted(Resolved(calls, host), p, Asked(write)) == Some(host(calls[k].dst) + p[|host(calls[k].src)|..])
  {
    var gs := Resolved(calls, host);
    forall i | 0 <= i < |calls|
      ensures gs[i].key == host(calls[i].src) && gs[i].target == host(calls[i].dst)
      ensures Confers(gs[i], write) == Carries(calls[i], write)
    {
      ResolvedAt(calls, host, i);
    }
    var key := host(calls[k].src);
    assert gs[k].key == key;
    Target(gs, p, key, write);
    var target :| LastTarget(gs, key, target) && Granted(gs, p, Asked(write)) == Some(target + p[|key|..]);
    assert target == gs[k].target;
  }

  /** The guest's accesses below the first path of a volume go below its second. */
  lemma VolumeTarget(o: Options, host: Host, p: Path, write: bool, i: nat, parts: seq<string>)
    requires CallsOf(o).Success? && i < |o.volumes| && o.volumes[i] == Split.Join(parts, ':')
    requires 2 <= |parts| <= 3 && Split.Free(parts, ':')
    requires Decides(CallsOf(o).value, host, p, write, VolumeIndex(o, i))
    ensures host(parts[0]) <= p
    ensures Granted(Resolved(CallsOf(o).value, host), p, Asked(write)) == Some(host(parts[1]) + p[|host(parts[0])|..])
  {
    VolumeCallAt(o, i);
    VolumeMeans(parts);
    CallTarget(CallsOf(o).value, host, p, write, VolumeIndex(o, i));
  }
}

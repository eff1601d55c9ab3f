/**
 The master VM as an object, through boot, warmup, snapshot and forking, and the processes that share a snapshot file
 (`initialize`, `warmup`, `save_state`, `load_state`, `restart_poll_syscall` and `main`).
 */
module Master {
  import opened Wrappers
  import opened Boot
  import Snapshot

  datatype Error = UnknownPolling | NotWaiting | SocketError

  const AF_UNSPEC := 0

  /** What a snapshot file says about the listener and how to wait for it; all zero as long as nothing was written. */
  datatype Saved = Saved(poll: PollMethod, vfd: int, domain: nat)

  const BLANK := Saved(Undefined, 0, AF_UNSPEC)

  /** How far `save_state` gets: to its end, not even to the method, or to some socket call that fails. */
  datatype Saving = Saves(domain: nat) | CutShort | SocketFails(domain: nat)

  const SYS_poll := 7
  const SYS_epoll_wait := 232
  const SYS_accept4 := 288

  /** `restart_poll_syscall`: the number of the system call made. */
  method RestartPollSyscall(poll: PollMethod) returns (r: Result<int, Error>)
    ensures r.Failure? <==> poll == Undefined
    ensures r.Failure? ==> r.error == UnknownPolling
    ensures r.Success? ==> Method(r.value) == poll && r.value == if poll == Poll then 7 else if poll == Epoll then 232 else 288
  {
    match poll
    case Poll => return Success(SYS_poll);
    case Epoll => return Success(SYS_epoll_wait);
    case Blocking => return Success(SYS_accept4);
    case Undefined => return Failure(UnknownPolling);
  }

  /** The way of waiting that a system call is. */
  function Method(number: int): PollMethod {
    if number == SYS_poll then Poll else if number == SYS_epoll_wait then Epoll
    else if number == SYS_accept4 then Blocking else Undefined
  }

  class VirtualMachine {
    var poll: PollMethod
    var waiting: bool
    var trackedVfd: int
    var trackedFd: int
    var freed: nat
    var accepted: set<int>
    var world: World
    ghost var paused: Option<Wait>

    ghost function At(): State
      reads this
    {
      State(poll, waiting, trackedVfd, trackedFd, paused, freed, accepted, world)
    }

    constructor (open: set<int>)
      ensures At() == Fresh(open)
    {
      poll, waiting, trackedVfd, trackedFd, paused := Undefined, false, -1, -1, None;
      freed, accepted, world := 0, {}, World(open, 0, 0, false);
    }

    // -------------------------------------------------------------- callbacks

    method ListeningSocket(vfd: int, fd: int, valid: bool, ghost phase: Phase) returns (allowed: bool)
      modifies this
      ensures allowed == valid && At() == Do(old(At()), Listens(vfd, fd, valid), phase)
      ensures At() == if valid then old(At()).(trackedVfd := vfd, trackedFd := fd) else old(At())
    {
      if !valid {
        return false;
      }
      trackedVfd, trackedFd := vfd, fd;
      return true;
    }

    method BootEpollWait(watched: set<int>) returns (call: bool)
      modifies this
      ensures At() == Do(old(At()), EpollWaits(watched), Booting)
      ensures call <==> old(trackedVfd) == -1 || old(trackedVfd) !in watched
      ensures At() == if call then old(At()) else old(At()).(poll := Epoll, waiting := true, paused := Some(Wait(Epoll, watched)))
    {
      if trackedVfd != -1 {
        if trackedVfd !in watched {
          return true;
        }
        poll, waiting, paused := Epoll, true, WaitOf(EpollWaits(watched));
        return false;
      }
      return true;
    }

    method BootPoll(fds: seq<int>) returns (call: bool)
      modifies this
      ensures At() == Do(old(At()), Polls(fds), Booting)
      ensures call <==> old(trackedVfd) == -1 || old(trackedVfd) !in fds
      ensures call ==> At() == old(At())
      ensures !call ==> At() == old(At()).(poll := Poll, waiting := true, paused := Some(Wait(Poll, set v | v in fds)))
    {
      if trackedVfd != -1 {
        for i := 0 to |fds|
          invariant At() == old(At()) && trackedVfd !in fds[..i]
        {
          if fds[i] == trackedVfd {
            poll, waiting, paused := Poll, true, WaitOf(Polls(fds));
            return false;
          }
        }
        assert fds[..|fds|] == fds;
      }
      return true;
    }

    method BootAccept(vfd: int, nonblocking: bool) returns (call: bool)
      modifies this
      ensures At() == Do(old(At()), CallsAccept(vfd, nonblocking), Booting)
      ensures call <==> old(trackedVfd) == -1 || old(poll) != Undefined || vfd != old(trackedVfd) || nonblocking
      ensures At() == if call then old(At()) else old(At()).(poll := Blocking, waiting := true, paused := Some(Wait(Blocking, {vfd})))
    {
      if trackedVfd != -1 && poll == Undefined {
        if vfd == trackedVfd {
          if nonblocking {
            return true;
          }
          poll, waiting, paused := Blocking, true, WaitOf(CallsAccept(vfd, nonblocking));
          return false;
        }
      }
      return true;
    }

    /** The callbacks of a warmup for the three calls that wait. */
    method WarmupWait(a: Act, n: nat) returns (call: bool)
      requires a.EpollWaits? || a.Polls? || a.CallsAccept?
      modifies this
      ensures At() == Do(old(At()), a, Warming(n))
      ensures call <==> old(freed) < n || (a.CallsAccept? && old(poll) != Blocking)
      ensures At() == if call then old(At()) else old(At()).(waiting := true, paused := WaitOf(a))
    {
      if !a.CallsAccept? || poll == Blocking {
        if freed >= n {
          waiting, paused := true, WaitOf(a);
          return false;
        }
      }
      return true;
    }

    method WarmupAcceptSocket(managed: int) returns (vfd: int)
      modifies this`accepted
      ensures vfd == managed && accepted == old(accepted) + {managed}
    {
      accepted := accepted + {managed};
      return managed;
    }

    method WarmupFreeFd(vfd: int) returns (handled: bool)
      modifies this`accepted, this`freed
      ensures !handled && freed == old(freed) + (if vfd in old(accepted) then 1 else 0) && accepted == old(accepted) - {vfd}
    {
      if vfd in accepted {
        accepted := accepted - {vfd};
        freed := freed + 1;
      }
      return false;
    }

    // -------------------------------------------------------------- running

    method Perform(a: Act, phase: Phase)
      modifies this
      ensures At() == Do(old(At()), a, phase)
    {
      var call: bool;
      match a
      case Listens(vfd, fd, valid) => call := ListeningSocket(vfd, fd, valid, phase);
      case EpollWaits(watched) => if phase.Booting? { call := BootEpollWait(watched); } else { call := WarmupWait(a, phase.n); }
      case Polls(fds) => if phase.Booting? { call := BootPoll(fds); } else { call := WarmupWait(a, phase.n); }
      case CallsAccept(vfd, nonblocking) =>
        if phase.Booting? { call := BootAccept(vfd, nonblocking); } else { call := WarmupWait(a, phase.n); }
      case Takes(managed) =>
        world := InWorld(world, a);
        if phase.Warming? {
          var vfd := WarmupAcceptSocket(managed);
        }
      case Closes(vfd) =>
        world := InWorld(world, a);
        if phase.Warming? {
          call := WarmupFreeFd(vfd);
        }
      case _ => world := InWorld(world, a);
    }

    /** `machine().run`: until the script is over; after a stop only clients go on. */
    method Run(acts: seq<Act>, phase: Phase)
      modifies this
      ensures At() == After(old(At()), acts, phase)
    {
      for i := 0 to |acts|
        invariant At() == After(old(At()), acts[..i], phase)
      {
        assert acts[..i + 1][..i] == acts[..i];
        Perform(acts[i], phase);
      }
      assert acts[..|acts|] == acts;
    }

    /** `warmup`: the method found by the boot is used, and stays. */
    method Warmup(n: nat, acts: seq<Act>) returns (r: Result<bool, Error>)
      requires n > 0 ==> IsRun(WarmupStart(At()), acts, Warming(n))
      modifies this
      ensures poll == old(poll)
      ensures r.Success? <==> n == 0 || (old(poll) != Undefined && exists i :: FirstWait(acts, i, n, old(poll)))
      ensures r.Failure? ==> r.error == if old(poll) == Undefined then UnknownPolling else NotWaiting
      ensures r.Success? ==>
                if n == 0 then At() == old(At())
                else waiting && poll != Undefined && At() == After(WarmupStart(old(At())), acts, Warming(n))
    {
      if n == 0 {
        return Success(true);
      }
      waiting, paused := false, None;
      freed, accepted := 0, {};
      var call :- RestartPollSyscall(poll);
      Accounting(At(), acts, n);
      ghost var i := StopsAtFirstWait(At(), acts, n);
      Run(acts, Warming(n));
      if !waiting {
        return Failure(NotWaiting);
      }
      return Success(true);
    }

    /** `save_state`: the snapshot itself comes first, then method and listener, then the listener's settings. */
    method SaveState(how: Saving) returns (file: Saved, r: Result<bool, Error>)
      ensures r.Success? <==> how.Saves?
      ensures r.Failure? ==> r.error == SocketError
      ensures file == if how.CutShort? then BLANK else Saved(poll, trackedVfd, how.domain)
    {
      file := BLANK;
      if how.CutShort? {
        return file, Failure(SocketError);
      }
      file := file.(poll := poll);
      file := file.(vfd := trackedVfd);
      file := file.(domain := how.domain);
      r := if how.SocketFails? then Failure(SocketError) else Success(true);
    }

    /** `load_state`, with the new listener, unless it cannot be made; there is no socket of an unspecified domain. */
    method LoadState(file: Saved, listener: Option<nat>, fds: Snapshot.Descriptors) returns (r: Result<bool, Error>)
      modifies this, fds
      ensures r.Success? <==> listener.Some? && file.domain != AF_UNSPEC
      ensures r.Failure? ==> r.error == SocketError
      ensures poll == file.poll && waiting == old(waiting)
      ensures r.Success? ==>
                && trackedVfd == file.vfd && trackedFd == listener.value
                && fds.fds == old(fds.fds)[file.vfd := listener.value]
                && Snapshot.Restored(old(fds.tables), fds.fds, file.vfd, listener.value, {}, fds.tables, old(fds.host), fds.host)
    {
      poll := file.poll;
      if file.domain == AF_UNSPEC || listener.None? {
        return Failure(SocketError);
      }
      trackedVfd, trackedFd := file.vfd, listener.value;
      fds.Restore(file.vfd, listener.value);
      return Success(true);
    }

    /** `initialize`: from the snapshot, when there is one; else boot, warmup and a new snapshot. */
    method Initialize(p: Plan, file: Option<Saved>, fds: Snapshot.Descriptors)
      returns (r: Result<bool, Error>, next: Option<Saved>)
      requires At() == Fresh(p.open) && Possible(p) && KnowsPolling(file)
      modifies this, fds
      ensures KnowsPolling(next)
      ensures r.Success? <==> Initializes(p, file)
      ensures r.Success? ==> (waiting <==> file.Some? || exists i :: FirstAwait(p.boot, i))
      ensures r.Failure? ==> r.error != UnknownPolling
      ensures r.Success? && waiting ==> poll == Recorded(p, file) != Undefined
      ensures r.Success? && !waiting ==> JustOneVm(p)
      ensures r.Success? && file.None? ==> At() == if waiting then Ready(p) else Booted(p)
      ensures r.Success? && file.Some? ==> poll == file.value.poll && trackedVfd == file.value.vfd
      ensures next == Leaves(p, file)
    {
      next := file;
      if file.Some? {
        waiting := true;
        r := LoadState(file.value, p.listener, fds);
        return;
      }
      Run(p.boot, Booting);
      BootSettles(p.open, p.boot);
      BootStops(p.open, p.boot);
      if !waiting {
        return if JustOneVm(p) then Success(true) else Failure(NotWaiting), next;
      }
      r := Warmup(p.n, p.warm);
      if r.Success? && p.snapshots {
        var saved: Saved;
        saved, r := SaveState(p.saving);
        next := Some(saved);
      }
    }
  }

  /** A run of the client alone that has made `made` connections. */
  ghost predicate ClientRun(s: State, acts: seq<Act>, n: nat, made: nat, quit: bool) {
    && IsRun(s, acts, Warming(n)) && (forall i | 0 <= i < |acts| :: acts[i].ClientConnects?)
    && After(s, acts, Warming(n)) == s.(world := s.world.(backlog := s.world.backlog + made, made := made, quit := quit))
  }

  lemma ClientRunGrows(s: State, acts: seq<Act>, n: nat, made: nat, ok: bool, more: seq<Act>)
    requires ClientRun(s, acts, n, made, false) && made < n && more == acts + [ClientConnects(ok)]
    ensures ClientRun(s, more, n, if ok then made + 1 else made, !ok)
  {}

  /** The loop of the warmup client: what it does is what a run allows it to do, and no more than `n` connections. */
  method WarmupClient(n: nat, connects: nat -> bool, stopped: nat -> bool, ghost s: State)
    returns (acts: seq<Act>, made: nat)
    requires s.world.made == 0 && !s.world.quit
    ensures made <= n && exists quit :: ClientRun(s, acts, n, made, quit)
    ensures made < n ==> (exists c: nat :: c < n && !connects(c)) || (exists c: nat :: c < n && stopped(c))
  {
    acts, made := [], 0;
    for c := 0 to n
      invariant made == c && ClientRun(s, acts, n, made, false)
    {
      var ok := connects(c);
      ghost var before := acts;
      acts := acts + [ClientConnects(ok)];
      ClientRunGrows(s, before, n, made, ok, acts);
      if !ok {
        break;
      }
      made := made + 1;
      if stopped(c) {
        break;
      }
    }
  }

  // ---------------------------------------------------------------- processes

  /** One process: its options, what its guest and clients do, and what fails. */
  datatype Plan = Plan(
    open: set<int>, concurrency: nat, ephemeral: bool, n: nat, snapshots: bool,
    boot: seq<Act>, warm: seq<Act>, saving: Saving, listener: Option<nat>, resumes: nat -> nat)

  predicate JustOneVm(p: Plan) {
    p.concurrency == 1 && !p.ephemeral
  }

  ghost function Booted(p: Plan): State {
    After(Fresh(p.open), p.boot, Booting)
  }

  ghost predicate Possible(p: Plan) {
    && IsRun(Fresh(p.open), p.boot, Booting)
    && (Booted(p).waiting ==> IsRun(WarmupStart(Booted(p)), p.warm, Warming(p.n)))
  }

  /** The state in which a guest is forked or saved. */
  ghost function Ready(p: Plan): State {
    if p.n == 0 then Booted(p) else After(WarmupStart(Booted(p)), p.warm, Warming(p.n))
  }

  /** The guest comes to wait for its listener, and warms up. */
  ghost predicate GetsReady(p: Plan) {
    (exists i :: FirstAwait(p.boot, i)) && (p.n == 0 || exists i :: FirstWait(p.warm, i, p.n, Booted(p).poll))
  }

  /**
   When a process gets through its initialisation: the snapshot can be loaded; or the guest gets ready and is saved, if it
   is to be; or it is a single VM that does not wait.
   */
  ghost predicate Initializes(p: Plan, file: Option<Saved>) {
    if file.Some? then p.listener.Some? && file.value.domain != AF_UNSPEC
    else if exists i :: FirstAwait(p.boot, i) then GetsReady(p) && (p.snapshots ==> p.saving.Saves?)
    else JustOneVm(p)
  }

  /** The snapshot file after a process that found `file`. */
  ghost function Leaves(p: Plan, file: Option<Saved>): Option<Saved> {
    if file.Some? || !p.snapshots || !GetsReady(p) then file
    else if p.saving.CutShort? then Some(BLANK)
    else Some(Saved(Ready(p).poll, Ready(p).trackedVfd, p.saving.domain))
  }

  function Sum(f: nat -> nat, n: nat): nat {
    if n == 0 then 0 else Sum(f, n - 1) + f(n - 1)
  }

  /** How often a process restarts the polling call. */
  ghost function RestartsOf(p: Plan, file: Option<Saved>): nat {
    if !Initializes(p, file) || (file.None? && !exists i :: FirstAwait(p.boot, i)) then 0
    else if JustOneVm(p) then 1
    else if p.ephemeral then Sum(p.resumes, p.concurrency)
    else 0
  }

  /** A file without a method has no domain either, and cannot be loaded. */
  predicate KnowsPolling(file: Option<Saved>) {
    file.Some? && file.value.domain != AF_UNSPEC ==> file.value.poll != Undefined
  }

  /** The method that the process which booted the guest found. */
  ghost function Recorded(p: Plan, file: Option<Saved>): PollMethod {
    if file.Some? then file.value.poll else Booted(p).poll
  }

  /** `main`: every restart of the system call is recorded. */
  method Serve(p: Plan, file: Option<Saved>, fds: Snapshot.Descriptors)
    returns (restarts: seq<Result<int, Error>>, r: Result<bool, Error>, next: Option<Saved>)
    requires Possible(p) && KnowsPolling(file)
    modifies fds
    ensures KnowsPolling(next) && next == Leaves(p, file)
    ensures |restarts| == RestartsOf(p, file)
    ensures forall i | 0 <= i < |restarts| :: restarts[i].Success? && Method(restarts[i].value) == Recorded(p, file)
    ensures r.Success? <==> Initializes(p, file)
    ensures r.Failure? ==> r.error != UnknownPolling
  {
    restarts := [];
    var vm := new VirtualMachine(p.open);
    r, next := vm.Initialize(p, file, fds);
    if r.Failure? || !vm.waiting {
      return;
    }
    if JustOneVm(p) {
      var call := RestartPollSyscall(vm.poll);
      restarts := [call];
      return;
    }
    for i := 0 to p.concurrency
      invariant vm.poll == Recorded(p, file) != Undefined
      invariant |restarts| == if p.ephemeral then Sum(p.resumes, i) else 0
      invariant forall k | 0 <= k < |restarts| :: restarts[k].Success? && Method(restarts[k].value) == vm.poll
    {
      var forkPoll := vm.poll; // copied by the fork constructor, and written by nothing in a fork
      if p.ephemeral {
        var more := Resumes(forkPoll, p.resumes(i));
        restarts := restarts + more;
      }
    }
  }

  /** The restarts of one fork. */
  method Resumes(poll: PollMethod, n: nat) returns (restarts: seq<Result<int, Error>>)
    requires poll != Undefined
    ensures |restarts| == n
    ensures forall k | 0 <= k < n :: restarts[k].Success? && Method(restarts[k].value) == poll
  {
    restarts := [];
    for j := 0 to n
      invariant |restarts| == j
      invariant forall k | 0 <= k < j :: restarts[k].Success? && Method(restarts[k].value) == poll
    {
      var call := RestartPollSyscall(poll);
      restarts := restarts + [call];
    }
  }

  /** The snapshot file that process number `i` finds, if it uses one. */
  ghost function Found(ps: seq<Plan>, i: nat): Option<Saved>
    requires i <= |ps|
  {
    if i == 0 then None
    else if ps[i - 1].snapshots then Leaves(ps[i - 1], Found(ps, i - 1)) else Found(ps, i - 1)
  }

  ghost function AllRestarts(ps: seq<Plan>, n: nat): nat
    requires n <= |ps|
  {
    if n == 0 then 0
    else AllRestarts(ps, n - 1) + RestartsOf(ps[n - 1], if ps[n - 1].snapshots then Found(ps, n - 1) else None)
  }

  /** Any number of processes one after the other over one snapshot file, which does not exist at first. */
  method Deploy(ps: seq<Plan>, fds: Snapshot.Descriptors) returns (restarts: seq<Result<int, Error>>)
    requires forall i | 0 <= i < |ps| :: Possible(ps[i])
    modifies fds
    ensures |restarts| == AllRestarts(ps, |ps|)
    ensures forall i | 0 <= i < |restarts| :: restarts[i].Success?
  {
    restarts := [];
    var disk: Option<Saved> := None;
    for i := 0 to |ps|
      invariant disk == Found(ps, i) && KnowsPolling(disk) && |restarts| == AllRestarts(ps, i)
      invariant forall k | 0 <= k < |restarts| :: restarts[k].Success?
    {
      var more, r, next := Serve(ps[i], if ps[i].snapshots then disk else None, fds);
      restarts := restarts + more;
      disk := if ps[i].snapshots then next else disk;
    }
  }
}

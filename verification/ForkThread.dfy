/**
 The code of a request VM as it is written: an object with its flags, the callbacks and `reset_to` that update
 them, the loop of `resume_fork` and the thread loop of `main` (src/vm.cpp:348-415, 710-737,
 src/main.cpp:200-229).  Each is proved to take only steps of the machine in module Fork, so everything
 shown there of every run is true of the code.

 The outside world is a script: what the guest does each time it is resumed, and how each reset turns out.
 The endless loops run for as long as the script does.
 */
module ForkThread {
  import opened Wrappers
  import opened Fork

  /** `steps` can be taken from `f`. */
  ghost predicate Takes(f: Vm, steps: seq<Step>, master: Guest)
    decreases |steps|, 0
  {
    steps == [] ||
    (Takes(f, steps[..|steps| - 1], master) && Enabled(Reaches(f, steps[..|steps| - 1], master), steps[|steps| - 1]))
  }

  ghost function Reaches(f: Vm, steps: seq<Step>, master: Guest): Vm
    requires Takes(f, steps, master)
    decreases |steps|, 1
  {
    if steps == [] then f
    else Do(Reaches(f, steps[..|steps| - 1], master), steps[|steps| - 1], master)
  }

  ghost predicate Path(f: Vm, steps: seq<Step>, g: Vm, master: Guest) {
    Takes(f, steps, master) && Reaches(f, steps, master) == g
  }

  /** How often the guest was resumed. */
  function Resumes(steps: seq<Step>): nat {
    if steps == [] then 0 else Resumes(steps[..|steps| - 1]) + if steps[|steps| - 1] == Resume then 1 else 0
  }

  lemma {:induction false} Then(f: Vm, steps: seq<Step>, g: Vm, s: Step, master: Guest)
    requires Path(f, steps, g, master) && Enabled(g, s)
    ensures Path(f, steps + [s], Do(g, s, master), master)
    ensures Resumes(steps + [s]) == Resumes(steps) + if s == Resume then 1 else 0
  {
    assert (steps + [s])[..|steps|] == steps;
  }

  lemma {:induction false} One(f: Vm, s: Step, master: Guest)
    requires Enabled(f, s)
    ensures Path(f, [s], Do(f, s, master), master)
    ensures Resumes([s]) == if s == Resume then 1 else 0
  {
    var none: seq<Step> := [];
    assert [s][..0] == none && |[s]| - 1 == 0;
    assert Takes(f, none, master) && Reaches(f, none, master) == f && Resumes(none) == 0;
  }

  lemma {:induction false} Chain(f: Vm, a: seq<Step>, g: Vm, b: seq<Step>, h: Vm, master: Guest)
    requires Path(f, a, g, master) && Path(g, b, h, master)
    ensures Path(f, a + b, h, master)
    ensures Resumes(a + b) == Resumes(a) + Resumes(b)
    decreases |b|
  {
    if b == [] {
      assert a + b == a;
    } else {
      var n := |b| - 1;
      Chain(f, a, g, b[..n], Reaches(g, b[..n], master), master);
      Then(f, a + b[..n], Reaches(g, b[..n], master), b[n], master);
      assert a + b[..n] + [b[n]] == a + b;
    }
  }

  const RESET_STEPS := [MachineReset, CallbackReturn, ClearFlags]
  const CALLBACK_FAILS := [MachineReset, CallbackThrow]

  /** The two ways through `reset_to` once the machine itself has been reset. */
  lemma ResetPaths(f: Vm, master: Guest)
    requires InReset(f, Machine)
    ensures Path(f, CALLBACK_FAILS, f.(pc := AfterThrow(f.pc), guest := master), master) && Resumes(CALLBACK_FAILS) == 0
    ensures Path(f, RESET_STEPS,
                 f.(pc := if f.pc.LoopReset? then ResetDone else Resuming, guest := master,
                    trackedFd := -1, trackedVfd := -1, blocking := false), master) && Resumes(RESET_STEPS) == 0
  {
    One(f, MachineReset, master);
    var g := Do(f, MachineReset, master);
    Then(f, [MachineReset], g, CallbackThrow, master);
    assert [MachineReset] + [CallbackThrow] == CALLBACK_FAILS;
    Then(f, [MachineReset], g, CallbackReturn, master);
    var two := [MachineReset] + [CallbackReturn];
    Then(f, two, Do(g, CallbackReturn, master), ClearFlags, master);
    assert two + [ClearFlags] == RESET_STEPS;
  }

  lemma {:induction false} PathKeepsSound(f: Vm, steps: seq<Step>, master: Guest)
    requires Sound(f, master) && Takes(f, steps, master)
    ensures Sound(Reaches(f, steps, master), master)
  {
    if steps != [] {
      var n := |steps| - 1;
      PathKeepsSound(f, steps[..n], master);
      StepKeepsSound(Reaches(f, steps[..n], master), steps[n], master);
    }
  }

  // ---------------------------------------------------------------- the script

  /** A system call or other action of the guest; what the host rejects has no effect. */
  datatype Act =
    | Computes(data: int)
    | Reads(vfd: int, data: int)
    | Accepts(conn: Conn, managed: int)
    | Closes(vfd: int)

  /** What an act does to the worker. */
  function Acted(f: Vm, act: Act): Vm {
    match act
    case Computes(data) => f.(guest := f.guest.(inputs := f.guest.inputs + [Other(data)]))
    case Reads(vfd, data) =>
      if vfd in f.guest.fds then f.(guest := f.guest.(inputs := f.guest.inputs + [Received(f.guest.fds[vfd], data)])) else f
    case Accepts(conn, managed) =>
      if AcceptCallback(f) && conn >= 0 && managed >= 0 && managed !in f.guest.fds
      then AcceptSocketCallback(f, conn, managed).0 else f
    case Closes(vfd) =>
      if vfd >= 0 then FreeFdCallback(f, vfd).(guest := f.guest.(fds := f.guest.fds - {vfd})) else f
  }

  function ActedAll(f: Vm, acts: seq<Act>): Vm {
    if acts == [] then f else Acted(ActedAll(f, acts[..|acts| - 1]), acts[|acts| - 1])
  }

  datatype GuestRun = GuestRun(acts: seq<Act>, throws: bool)

  datatype ResetOutcome = Succeeds | MachineFails(leaves: Guest -> Guest) | CallbackFails

  type Script = nat -> ResetOutcome

  /** A failing machine reset leaves nothing of a connection that was not there before. */
  ghost predicate Contained(resets: Script) {
    forall k, g: Guest :: resets(k).MachineFails? ==> Touched(resets(k).leaves(g)) <= Touched(g)
  }

  datatype Outcome = ScriptEnds | Breaks | Throws

  // ---------------------------------------------------------------- the object

  class ForkedVm {
    var trackedFd: int
    var trackedVfd: int
    var blocking: bool
    var resetNeeded: bool
    var guest: Guest

    ghost function At(pc: Pc): Vm
      reads this
    {
      Vm(pc, trackedFd, trackedVfd, blocking, resetNeeded, guest)
    }

    constructor (master: Guest)
      ensures At(Resuming) == Forked(master)
    {
      trackedFd, trackedVfd := -1, -1;
      blocking, resetNeeded := false, false;
      guest := master;
    }

    /** The gate, the accept and the close callback, behind the system calls that reach them. */
    method Perform(act: Act, master: Guest) returns (ghost steps: seq<Step>)
      modifies this
      ensures Path(old(At(InGuest)), steps, At(InGuest), master)
      ensures At(InGuest) == Acted(old(At(InGuest)), act)
      ensures Resumes(steps) == 0
    {
      steps := [];
      ghost var f := At(InGuest);
      match act
      case Computes(data) =>
        guest := guest.(inputs := guest.inputs + [Other(data)]);
        steps := [Compute(data)];
        One(f, Compute(data), master);
      case Reads(vfd, data) =>
        if vfd in guest.fds {
          guest := guest.(inputs := guest.inputs + [Received(guest.fds[vfd], data)]);
          steps := [Receive(vfd, data)];
          One(f, Receive(vfd, data), master);
        }
      case Accepts(conn, managed) =>
        if blocking {
          steps := [AcceptRefused];
          One(f, AcceptRefused, master);
        } else if conn >= 0 && managed >= 0 && managed !in guest.fds {
          var vfd := AcceptSocket(conn, managed);
          steps := [Accept(conn, managed)];
          One(f, Accept(conn, managed), master);
        }
      case Closes(vfd) =>
        if vfd >= 0 {
          var stopped := FreeFd(vfd);
          guest := guest.(fds := guest.fds - {vfd});
          steps := [Close(vfd)];
          One(f, Close(vfd), master);
        }
    }

    method AcceptSocket(fd: Conn, managed: int) returns (vfd: int)
      modifies this
      ensures (At(InGuest), vfd) == AcceptSocketCallback(old(At(InGuest)), fd, managed)
      ensures old(trackedVfd) != -1 ==> vfd == -EAGAIN && At(InGuest) == old(At(InGuest))
      ensures old(trackedVfd) == -1 ==>
                && vfd == trackedVfd == managed && trackedFd == fd && blocking && resetNeeded == old(resetNeeded)
                && guest.fds == old(guest.fds)[managed := fd] && guest.inputs == old(guest.inputs)
    {
      if trackedVfd != -1 {
        return -EAGAIN;
      }
      trackedFd := fd;
      guest := guest.(fds := guest.fds[managed := fd]);
      trackedVfd := managed;
      blocking := true;
      return trackedVfd;
    }

    method FreeFd(vfd: int) returns (stopped: bool)
      modifies this`resetNeeded
      ensures At(InGuest) == FreeFdCallback(old(At(InGuest)), vfd)
      ensures stopped <==> vfd == trackedVfd
      ensures resetNeeded == (old(resetNeeded) || vfd == trackedVfd)
    {
      if vfd == trackedVfd {
        resetNeeded := true;
        return true;
      }
      return false;
    }

    /** `vmresume`, or the system call restarted before it. */
    method Run(run: GuestRun, master: Guest) returns (threw: bool, ghost steps: seq<Step>)
      modifies this
      ensures Path(old(At(InGuest)), steps, At(if threw then MainReset(Machine) else Returned), master)
      ensures threw == run.throws && At(InGuest) == ActedAll(old(At(InGuest)), run.acts)
      ensures Resumes(steps) == 0
    {
      steps := [];
      for i := 0 to |run.acts|
        invariant Path(old(At(InGuest)), steps, At(InGuest), master)
        invariant At(InGuest) == ActedAll(old(At(InGuest)), run.acts[..i]) && Resumes(steps) == 0
      {
        assert run.acts[..i + 1][..i] == run.acts[..i];
        ghost var before := At(InGuest);
        ghost var more := Perform(run.acts[i], master);
        Chain(old(At(InGuest)), steps, before, more, At(InGuest), master);
        steps := steps + more;
      }
      assert run.acts[..|run.acts|] == run.acts;
      threw := run.throws;
      ghost var end := if threw then VmThrow else VmReturn;
      Then(old(At(InGuest)), steps, At(InGuest), end, master);
      steps := steps + [end];
    }

    /** `reset_to`: the machine, then the callback, then the flags; `caller` is where it was called from. */
    method ResetTo(master: Guest, outcome: ResetOutcome, ghost caller: Pc) returns (threw: bool, ghost steps: seq<Step>)
      requires caller == LoopReset(Machine) || caller == MainReset(Machine)
      requires outcome.MachineFails? ==> Touched(outcome.leaves(guest)) <= Touched(guest)
      modifies this
      ensures threw <==> !outcome.Succeeds?
      ensures Path(old(At(caller)), steps,
                   At(if threw then AfterThrow(caller) else if caller.LoopReset? then ResetDone else Resuming), master)
      ensures threw ==> trackedFd == old(trackedFd) && trackedVfd == old(trackedVfd) && blocking == old(blocking)
      ensures !threw ==> !blocking && trackedVfd == -1 && trackedFd == -1
      ensures guest == if outcome.MachineFails? then outcome.leaves(old(guest)) else master
      ensures Resumes(steps) == 0
      ensures resetNeeded == old(resetNeeded)
    {
      ghost var start := At(caller);
      if outcome.MachineFails? {
        steps := [MachineThrow(outcome.leaves(guest))];
        One(start, steps[0], master);
        guest := outcome.leaves(guest);
        return true, steps;
      }
      guest := master;
      ResetPaths(start, master);
      if outcome.CallbackFails? {
        return true, CALLBACK_FAILS;
      }
      trackedFd := -1;
      trackedVfd := -1;
      blocking := false;
      return false, RESET_STEPS;
    }

    /** The reset inside `resume_fork`, when one is needed. */
    method ResetNow(master: Guest, outcome: ResetOutcome) returns (threw: bool, ghost steps: seq<Step>)
      requires resetNeeded
      requires outcome.MachineFails? ==> Touched(outcome.leaves(guest)) <= Touched(guest)
      modifies this
      ensures threw <==> !outcome.Succeeds?
      ensures Path(old(At(Returned)), steps, At(if threw then MainReset(Machine) else Resuming), master)
      ensures Resumes(steps) == 0
      ensures !threw ==> !resetNeeded && !blocking && guest == master
    {
      ghost var start, f := At(Returned), At(LoopReset(Machine));
      One(start, Check, master);
      threw, steps := ResetTo(master, outcome, LoopReset(Machine));
      Chain(start, [Check], f, steps, At(if threw then MainReset(Machine) else ResetDone), master);
      steps := [Check] + steps;
      if threw {
        return;
      }
      Then(start, steps, At(ResetDone), Acknowledge, master);
      steps := steps + [Acknowledge];
      resetNeeded := false;
    }

    /** One turn of the loop in `resume_fork`; nothing is returned when the loop goes on. */
    method ResumeOnce(master: Guest, run: GuestRun, resets: Script, next: nat)
      returns (outcome: Option<Outcome>, k: nat, ghost steps: seq<Step>)
      requires Contained(resets)
      modifies this
      ensures outcome != Some(ScriptEnds)
      ensures Path(old(At(Resuming)), steps, At(if outcome.None? then Resuming else MainReset(Machine)), master)
      ensures Resumes(steps) == 1
      // a run that returns is followed by a reset here exactly when one is needed
      ensures !run.throws ==> (outcome == Some(Breaks) <==> !ActedAll(old(At(InGuest)), run.acts).resetNeeded)
      ensures run.throws ==> outcome == Some(Throws)
      ensures outcome.None? ==> !resetNeeded && !blocking && guest == master
    {
      k := next;
      ghost var start, f := At(Resuming), At(InGuest);
      One(start, Resume, master);
      var threw;
      ghost var more;
      threw, more := Run(run, master);
      Chain(start, [Resume], f, more, At(if threw then MainReset(Machine) else Returned), master);
      f := At(Returned);
      steps := [Resume] + more;
      if threw {
        return Some(Throws), k, steps;
      }
      if !resetNeeded {
        Then(start, steps, f, Check, master);
        return Some(Breaks), k, steps + [Check];
      }
      threw, more := ResetNow(master, resets(k));
      Chain(start, steps, f, more, At(if threw then MainReset(Machine) else Resuming), master);
      steps := steps + more;
      k := k + 1;
      outcome := if threw then Some(Throws) else None;
    }

    /** `resume_fork` of an ephemeral VM, from run `from` and reset number `next` of the script on. */
    method ResumeFork(master: Guest, runs: seq<GuestRun>, from: nat, resets: Script, next: nat)
      returns (outcome: Outcome, i: nat, k: nat, ghost steps: seq<Step>)
      requires from <= |runs| && Contained(resets)
      modifies this
      ensures from <= i <= |runs|
      ensures outcome != ScriptEnds ==> from < i
      ensures outcome == ScriptEnds ==> i == |runs|
      ensures Resumes(steps) == i - from
      ensures Path(old(At(Resuming)), steps, At(if outcome.ScriptEnds? then Resuming else MainReset(Machine)), master)
    {
      i, k, steps := from, next, [];
      ghost var start := At(Resuming);
      while i < |runs|
        invariant from <= i <= |runs|
        invariant Path(start, steps, At(Resuming), master) && Resumes(steps) == i - from
      {
        var end;
        ghost var more;
        ghost var f := At(Resuming);
        end, k, more := ResumeOnce(master, runs[i], resets, k);
        Chain(start, steps, f, more, At(if end.None? then Resuming else MainReset(Machine)), master);
        steps := steps + more;
        i := i + 1;
        if end.Some? {
          return end.value, i, k, steps;
        }
      }
      outcome := ScriptEnds;
    }

    /** The thread: resume, and reset whenever that comes back, swallowing a reset that fails. */
    method Thread(master: Guest, runs: seq<GuestRun>, resets: Script) returns (ghost steps: seq<Step>)
      requires Contained(resets)
      modifies this
      ensures Path(old(At(Resuming)), steps, At(Resuming), master)
      ensures Resumes(steps) == |runs|
      ensures old(Sound(At(Resuming), master)) ==> Sound(At(Resuming), master)
    {
      var i, k := 0, 0;
      ghost var start := At(Resuming);
      steps := [];
      while i < |runs|
        invariant i <= |runs|
        invariant Path(start, steps, At(Resuming), master) && Resumes(steps) == i
      {
        var outcome;
        ghost var more;
        ghost var before := At(Resuming);
        outcome, i, k, more := ResumeFork(master, runs, i, resets, k);
        Chain(start, steps, before, more, At(if outcome.ScriptEnds? then Resuming else MainReset(Machine)), master);
        steps := steps + more;
        if outcome.ScriptEnds? {
          break;
        }
        var failed;
        before := At(MainReset(Machine));
        failed, more := ResetTo(master, resets(k), MainReset(Machine));
        Chain(start, steps, before, more, At(Resuming), master);
        steps := steps + more;
        k := k + 1;
      }
      if Sound(start, master) {
        PathKeepsSound(start, steps, master);
      }
    }
  }
}

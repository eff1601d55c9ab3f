/**
 One ephemeral request VM: the callbacks of the fork constructor, `reset_to`, `resume_fork` and the body of
 its thread in `main` (src/vm.cpp:348-415, 710-737, src/main.cpp:200-229), as a machine with a program counter.

 The guest is represented by what it can have learnt: the client connections in its descriptor table and the
 inputs it has consumed since it was last equal to the frozen master.  Anything the guest computes is a
 function of those.
 */
module Fork {
  /** A client connection; host descriptors are named by the connection they carry. */
  type Conn = int

  datatype Input = Received(conn: Conn, data: int) | Other(data: int)

  datatype Guest = Guest(fds: map<int, Conn>, inputs: seq<Input>)

  /** The connections that a guest state can depend on. */
  ghost function Touched(g: Guest): set<Conn> {
    (set v | v in g.fds :: g.fds[v]) + (set i | 0 <= i < |g.inputs| && g.inputs[i].Received? :: g.inputs[i].conn)
  }

  /** Where inside `reset_to`: the machine reset, the reset callback, the three assignments. */
  datatype Stage = Machine | Callback | Flags

  datatype Pc =
    | Resuming                 // before restart_poll_syscall, in the loop of resume_fork
    | InGuest                  // inside restart_poll_syscall or vmresume
    | Returned                 // vmresume has returned
    | LoopReset(stage: Stage)  // reset_to called by resume_fork
    | ResetDone                // reset_to has returned to resume_fork
    | MainReset(stage: Stage)  // reset_to called by the thread in main

  datatype Vm = Vm(pc: Pc, trackedFd: int, trackedVfd: int, blocking: bool, resetNeeded: bool, guest: Guest)

  const EAGAIN := 11

  function Forked(master: Guest): Vm {
    Vm(Resuming, -1, -1, false, false, master)
  }

  // ---------------------------------------------------------------- callbacks

  /** May accept4 be called at all? */
  predicate AcceptCallback(f: Vm) {
    !f.blocking
  }

  /** A connection came back from accept4; `managed` is the descriptor that `manage` would give it. */
  function AcceptSocketCallback(f: Vm, fd: Conn, managed: int): (Vm, int) {
    if f.trackedVfd != -1 then (f, -EAGAIN)
    else
      (f.(trackedFd := fd, trackedVfd := managed, blocking := true,
          guest := f.guest.(fds := f.guest.fds[managed := fd])), managed)
  }

  function FreeFdCallback(f: Vm, vfd: int): Vm {
    if vfd == f.trackedVfd then f.(resetNeeded := true) else f
  }

  // ---------------------------------------------------------------- steps

  datatype Step =
    | Resume
    | Compute(data: int)                   // the guest consumes an input that is no client's
    | Receive(vfd: int, data: int)         // the guest reads from a client connection
    | AcceptRefused                        // accept4 is not called
    | Accept(conn: Conn, managed: int)     // accept4 takes a connection off the queue
    | Close(vfd: int)
    | VmReturn
    | VmThrow
    | Check                                // the test of the reset-needed flag
    | MachineReset
    | MachineThrow(left: Guest)            // the machine reset fails and leaves some guest state behind
    | CallbackReturn
    | CallbackThrow
    | ClearFlags                           // the end of reset_to
    | Acknowledge                          // resume_fork clears the reset-needed flag

  predicate InReset(f: Vm, stage: Stage) {
    f.pc == LoopReset(stage) || f.pc == MainReset(stage)
  }

  ghost predicate Enabled(f: Vm, s: Step) {
    match s
    case Resume => f.pc == Resuming
    case Compute(_) => f.pc == InGuest
    case Receive(vfd, _) => f.pc == InGuest && vfd in f.guest.fds
    case AcceptRefused => f.pc == InGuest && !AcceptCallback(f)
    case Accept(conn, managed) => f.pc == InGuest && AcceptCallback(f) && conn >= 0 && managed >= 0 && managed !in f.guest.fds
    case Close(vfd) => f.pc == InGuest && vfd >= 0
    case VmReturn => f.pc == InGuest
    case VmThrow => f.pc == InGuest
    case Check => f.pc == Returned
    case MachineReset => InReset(f, Machine)
    case MachineThrow(left) => InReset(f, Machine) && Touched(left) <= Touched(f.guest)
    case CallbackReturn => InReset(f, Callback)
    case CallbackThrow => InReset(f, Callback)
    case ClearFlags => InReset(f, Flags)
    case Acknowledge => f.pc == ResetDone
  }

  /** The next stage of the same `reset_to`. */
  function InStage(pc: Pc, stage: Stage): Pc
    requires pc.LoopReset? || pc.MainReset?
  {
    if pc.LoopReset? then LoopReset(stage) else MainReset(stage)
  }

  /** An exception from a reset inside resume_fork reaches the thread, which resets again; one from that reset is swallowed. */
  function AfterThrow(pc: Pc): Pc {
    if pc.LoopReset? then MainReset(Machine) else Resuming
  }

  ghost function Do(f: Vm, s: Step, master: Guest): Vm
    requires Enabled(f, s)
  {
    match s
    case Resume => f.(pc := InGuest)
    case Compute(data) => f.(guest := f.guest.(inputs := f.guest.inputs + [Other(data)]))
    case Receive(vfd, data) => f.(guest := f.guest.(inputs := f.guest.inputs + [Received(f.guest.fds[vfd], data)]))
    case AcceptRefused => f
    case Accept(conn, managed) => AcceptSocketCallback(f, conn, managed).0
    case Close(vfd) => FreeFdCallback(f, vfd).(guest := f.guest.(fds := f.guest.fds - {vfd}))
    case VmReturn => f.(pc := Returned)
    case VmThrow => f.(pc := MainReset(Machine))
    case Check => f.(pc := if f.resetNeeded then LoopReset(Machine) else MainReset(Machine))
    case MachineReset => f.(pc := InStage(f.pc, Callback), guest := master)
    case MachineThrow(left) => f.(pc := AfterThrow(f.pc), guest := left)
    case CallbackReturn => f.(pc := InStage(f.pc, Flags))
    case CallbackThrow => f.(pc := AfterThrow(f.pc))
    case ClearFlags =>
      f.(trackedFd := -1, trackedVfd := -1, blocking := false, pc := if f.pc.LoopReset? then ResetDone else Resuming)
    case Acknowledge => f.(resetNeeded := false, pc := Resuming)
  }

  // ---------------------------------------------------------------- what every step keeps

  /** The connections in service: at most one. */
  function Serving(f: Vm): set<Conn> {
    if f.trackedVfd == -1 then {} else {f.trackedFd}
  }

  /** What a worker may depend on, in every state of every run; `master` may itself hold connections. */
  ghost predicate Sound(f: Vm, master: Guest) {
    // the gate is closed exactly when a connection is tracked
    && (f.blocking <==> f.trackedVfd != -1)
    && (f.trackedFd == -1 <==> f.trackedVfd == -1)
    && f.trackedFd >= -1
    // the guest depends on the master and on no other connection
    && Touched(f.guest) <= Touched(master) + Serving(f)
    // after the machine reset, and while the gate is open, it depends on the master alone
    && (InReset(f, Callback) || InReset(f, Flags) || !f.blocking ==> Touched(f.guest) <= Touched(master))
  }

  lemma ForkedIsSound(master: Guest)
    ensures Sound(Forked(master), master)
  {}

  lemma TouchedByInput(g: Guest, i: Input)
    ensures Touched(g.(inputs := g.inputs + [i])) == Touched(g) + if i.Received? then {i.conn} else {}
  {
    var h := g.(inputs := g.inputs + [i]);
    assert forall k | 0 <= k < |g.inputs| :: h.inputs[k] == g.inputs[k];
    assert h.inputs[|g.inputs|] == i;
    forall c
      ensures c in Touched(h) <==> c in Touched(g) || (i.Received? && c == i.conn)
    {
      if k :| 0 <= k < |h.inputs| && h.inputs[k].Received? && h.inputs[k].conn == c {
        assert k < |g.inputs| ==> h.inputs[k] == g.inputs[k];
      }
      if k :| 0 <= k < |g.inputs| && g.inputs[k].Received? && g.inputs[k].conn == c {
        assert h.inputs[k] == g.inputs[k];
      }
    }
  }

  lemma TouchedByDescriptors(g: Guest, vfd: int, conn: Conn)
    ensures Touched(g.(fds := g.fds[vfd := conn])) <= Touched(g) + {conn}
    ensures Touched(g.(fds := g.fds - {vfd})) <= Touched(g)
  {}

  lemma StepKeepsSound(f: Vm, s: Step, master: Guest)
    requires Sound(f, master) && Enabled(f, s)
    ensures Sound(Do(f, s, master), master)
  {
    match s
    case Compute(data) => TouchedByInput(f.guest, Other(data));
    case Receive(vfd, data) =>
      TouchedByInput(f.guest, Received(f.guest.fds[vfd], data));
      assert f.guest.fds[vfd] in Touched(f.guest);
    case Accept(conn, managed) => TouchedByDescriptors(f.guest, managed, conn);
    case Close(vfd) => TouchedByDescriptors(f.guest, vfd, 0);
    case _ =>
  }

  /** Behind the gate the "already has a connection" branch cannot be taken. */
  lemma AcceptNeverRefusesAgain(f: Vm, conn: Conn, managed: int, master: Guest)
    requires Sound(f, master) && Enabled(f, Accept(conn, managed))
    ensures AcceptSocketCallback(f, conn, managed).1 == managed
    ensures Do(f, Accept(conn, managed), master).trackedFd == conn
  {}

  /**
   The gate lets a client in: an accepted connection is in the guest's descriptor table and nothing else changes there, what
   it sends can be read and is read as its own, and closing a descriptor takes just that one away.
   */
  lemma AcceptReachesGuest(f: Vm, conn: Conn, managed: int, data: int, master: Guest)
    requires Sound(f, master) && Enabled(f, Accept(conn, managed))
    ensures var g := Do(f, Accept(conn, managed), master);
            && g.guest == Guest(f.guest.fds[managed := conn], f.guest.inputs)
            && g.trackedFd == conn && g.trackedVfd == managed && g.blocking && g.pc == InGuest
            && Enabled(g, Receive(managed, data))
            && Do(g, Receive(managed, data), master).guest == Guest(g.guest.fds, g.guest.inputs + [Received(conn, data)])
  {}

  /** Reading from a connection, or anything else the guest learns, adds just that to what it depends on. */
  lemma InputsAdd(f: Vm, vfd: int, data: int, master: Guest)
    requires f.pc == InGuest && vfd in f.guest.fds
    ensures Enabled(f, Receive(vfd, data)) && Enabled(f, Compute(data))
    ensures Do(f, Receive(vfd, data), master) ==
            f.(guest := Guest(f.guest.fds, f.guest.inputs + [Received(f.guest.fds[vfd], data)]))
    ensures Do(f, Compute(data), master) == f.(guest := Guest(f.guest.fds, f.guest.inputs + [Other(data)]))
  {}

  /** Closing takes one descriptor away, and asks for a reset exactly if it is the tracked one. */
  lemma CloseTakesOne(f: Vm, vfd: int, master: Guest)
    requires Enabled(f, Close(vfd))
    ensures var g := Do(f, Close(vfd), master);
            && g == f.(guest := g.guest, resetNeeded := g.resetNeeded)
            && g.guest == Guest(map v | v in f.guest.fds && v != vfd :: f.guest.fds[v], f.guest.inputs)
            && (g.resetNeeded <==> f.resetNeeded || vfd == f.trackedVfd)
  {}
}

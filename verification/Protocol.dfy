/**
 N ephemeral workers over one accept queue (DESIGN.md and the thread loop of src/main.cpp:144-231):
 what holds in every state of every interleaved run, including runs in which guests, machine resets and
 reset callbacks fail at any point.
 */
module Protocol {
  import opened Fork
  import opened Descriptors

  /** `dropped` would hold connections taken off the queue and then refused by the worker. */
  datatype Server = Server(
    arrived: set<Conn>, queue: seq<Conn>, finished: set<Conn>, dropped: set<Conn>, workers: seq<Vm>)

  datatype Label = Arrive(conn: Conn) | Work(w: nat, step: Step)

  function Start(n: nat, master: Guest): Server {
    Server({}, [], {}, {}, seq(n, _ => Forked(master)))
  }

  ghost predicate CanDo(s: Server, l: Label) {
    match l
    case Arrive(c) => c >= 0 && c !in s.arrived
    case Work(w, step) =>
      && w < |s.workers|
      && Enabled(s.workers[w], step)
      && (step.Accept? ==> s.queue != [] && s.queue[0] == step.conn)
  }

  ghost function Next(s: Server, l: Label, master: Guest): Server
    requires CanDo(s, l)
  {
    match l
    case Arrive(c) => s.(arrived := s.arrived + {c}, queue := s.queue + [c])
    case Work(w, step) =>
      var f := s.workers[w];
      var t := s.(workers := s.workers[w := Do(f, step, master)]);
      match step
      case Accept(conn, managed) =>
        t.(queue := s.queue[1..],
           dropped := if AcceptSocketCallback(f, conn, managed).1 < 0 then s.dropped + {conn} else s.dropped)
      case ClearFlags => t.(finished := s.finished + Serving(f))
      case _ => t
  }

  ghost predicate IsRun(s: Server, ls: seq<Label>, master: Guest)
    decreases |ls|
  {
    ls == [] || (CanDo(s, ls[0]) && IsRun(Next(s, ls[0], master), ls[1..], master))
  }

  ghost function After(s: Server, ls: seq<Label>, master: Guest): Server
    requires IsRun(s, ls, master)
    decreases |ls|
  {
    if ls == [] then s else After(Next(s, ls[0], master), ls[1..], master)
  }

  lemma {:induction false} RunAppend(s: Server, a: seq<Label>, b: seq<Label>, master: Guest)
    ensures IsRun(s, a + b, master) <==> IsRun(s, a, master) && IsRun(After(s, a, master), b, master)
    ensures IsRun(s, a + b, master) ==> After(s, a + b, master) == After(After(s, a, master), b, master)
    decreases |a|
  {
    if a == [] {
      assert a + b == b;
    } else {
      assert (a + b)[0] == a[0] && (a + b)[1..] == a[1..] + b;
      if CanDo(s, a[0]) {
        RunAppend(Next(s, a[0], master), a[1..], b, master);
      }
    }
  }

  /** A run taken apart at one of its labels. */
  lemma RunSplit(s: Server, pre: seq<Label>, l: Label, post: seq<Label>, master: Guest)
    requires IsRun(s, pre + [l] + post, master)
    ensures IsRun(s, pre, master) && CanDo(After(s, pre, master), l)
    ensures IsRun(Next(After(s, pre, master), l, master), post, master)
  {
    assert pre + [l] + post == pre + ([l] + post);
    RunAppend(s, pre, [l] + post, master);
    assert ([l] + post)[0] == l && ([l] + post)[1..] == post;
  }

  // ---------------------------------------------------------------- the invariant

  /** How many workers are serving a connection. */
  function Servers(workers: seq<Vm>, c: Conn): nat {
    if workers == [] then 0
    else Servers(workers[1..], c) + if c in Serving(workers[0]) then 1 else 0
  }

  /** In how many places a connection is: waiting, in service, or finished. */
  function Places(s: Server, c: Conn): nat {
    multiset(s.queue)[c] + Servers(s.workers, c) + if c in s.finished then 1 else 0
  }

  /** Every arrival is in exactly one place, and nothing else is anywhere. */
  ghost predicate Conserved(s: Server) {
    forall c :: Places(s, c) == if c in s.arrived then 1 else 0
  }

  ghost predicate Inv(s: Server, master: Guest) {
    && (forall w | 0 <= w < |s.workers| :: Sound(s.workers[w], master))
    && s.dropped == {} && (forall c | c in s.arrived :: c >= 0)
    && Conserved(s)
  }

  lemma {:induction false} ServersUpdate(workers: seq<Vm>, w: nat, f: Vm, c: Conn)
    requires w < |workers|
    ensures Servers(workers[w := f], c) + (if c in Serving(workers[w]) then 1 else 0)
         == Servers(workers, c) + (if c in Serving(f) then 1 else 0)
  {
    if w == 0 {
      assert workers[w := f][1..] == workers[1..];
    } else {
      assert workers[w := f][1..] == workers[1..][w - 1 := f];
      ServersUpdate(workers[1..], w - 1, f, c);
    }
  }

  lemma {:induction false} ServersHas(workers: seq<Vm>, w: nat, c: Conn)
    requires w < |workers| && c in Serving(workers[w])
    ensures Servers(workers, c) >= 1
  {
    if w > 0 {
      ServersHas(workers[1..], w - 1, c);
    }
  }

  lemma {:induction false} ServersAtStart(n: nat, master: Guest, c: Conn)
    ensures Servers(seq(n, _ => Forked(master)), c) == 0
  {
    if n > 0 {
      var all := seq(n, _ => Forked(master));
      assert all[1..] == seq(n - 1, _ => Forked(master));
      ServersAtStart(n - 1, master, c);
    }
  }

  /** All connections in service, and how many there can be. */
  function InService(workers: seq<Vm>): (cs: set<Conn>)
    ensures |cs| <= |workers|
  {
    if workers == [] then {}
    else InService(workers[1..]) + Serving(workers[0])
  }

  lemma ServingChanges(f: Vm, step: Step, master: Guest)
    requires Sound(f, master) && Enabled(f, step)
    ensures var g := Do(f, step, master);
            match step
            case Accept(conn, _) => Serving(f) == {} && Serving(g) == {conn}
            case ClearFlags => Serving(g) == {}
            case _ => Serving(g) == Serving(f)
  {}

  lemma StepKeepsPlaces(s: Server, w: nat, step: Step, master: Guest, c: Conn)
    requires Inv(s, master) && CanDo(s, Work(w, step))
    ensures Places(Next(s, Work(w, step), master), c) == Places(s, c)
  {
    var f := s.workers[w];
    var g := Do(f, step, master);
    ServersUpdate(s.workers, w, g, c);
    ServingChanges(f, step, master);
    match step
    case Accept(conn, managed) =>
      assert s.queue == [conn] + s.queue[1..];
    case ClearFlags =>
      if c in Serving(f) {
        ServersHas(s.workers, w, c);
        assert Places(s, c) <= 1;
      }
    case _ =>
  }

  lemma NextKeepsInv(s: Server, l: Label, master: Guest)
    requires Inv(s, master) && CanDo(s, l)
    ensures Inv(Next(s, l, master), master)
  {
    match l
    case Arrive(c) =>
      forall d
        ensures Places(Next(s, l, master), d) == Places(s, d) + if d == c then 1 else 0
      {}
    case Work(w, step) =>
      StepKeepsSound(s.workers[w], step, master);
      forall c
        ensures Places(Next(s, l, master), c) == Places(s, c)
      {
        StepKeepsPlaces(s, w, step, master, c);
      }
  }

  lemma {:induction false} RunKeepsInv(s: Server, ls: seq<Label>, master: Guest)
    requires Inv(s, master) && IsRun(s, ls, master)
    ensures Inv(After(s, ls, master), master)
    decreases |ls|
  {
    if ls != [] {
      NextKeepsInv(s, ls[0], master);
      RunKeepsInv(Next(s, ls[0], master), ls[1..], master);
    }
  }

  /**
   The safety theorem.  However many workers there are and however their steps interleave and fail: the gate of
   a worker is closed exactly when it tracks a connection, its guest depends on the master and that connection only (and on
   the master alone while the gate is open), no connection is ever taken and refused, and every arrival is queued, in service
   at one worker, or finished, in one of these places only.
   */
  lemma Safety(n: nat, master: Guest, ls: seq<Label>)
    requires IsRun(Start(n, master), ls, master)
    ensures var s := After(Start(n, master), ls, master);
            && Inv(s, master)
            && |s.workers| == n && |InService(s.workers)| <= n
  {
    var s0 := Start(n, master);
    ForkedIsSound(master);
    forall c
      ensures Places(s0, c) == 0
    {
      ServersAtStart(n, master, c);
    }
    RunKeepsInv(s0, ls, master);
    WorkersStay(s0, ls, master);
  }

  /** Forked from a master that holds no connection, a worker depends on the one it tracks, and on none with its gate open. */
  lemma CleanMaster(n: nat, master: Guest, ls: seq<Label>, w: nat)
    requires IsRun(Start(n, master), ls, master) && w < n && Touched(master) == {}
    ensures var s := After(Start(n, master), ls, master);
            && w < |s.workers| && Touched(s.workers[w].guest) <= Serving(s.workers[w])
            && (!s.workers[w].blocking ==> Touched(s.workers[w].guest) == {})
  {
    Safety(n, master, ls);
  }

  lemma {:induction false} WorkersStay(s: Server, ls: seq<Label>, master: Guest)
    requires IsRun(s, ls, master)
    ensures |After(s, ls, master).workers| == |s.workers|
    decreases |ls|
  {
    if ls != [] {
      WorkersStay(Next(s, ls[0], master), ls[1..], master);
    }
  }

  // ---------------------------------------------------------------- what happens between two events

  /** A closed gate stays closed, and nothing is accepted, until the flags are cleared at the end of a successful reset. */
  lemma {:induction false} GateHeld(s: Server, w: nat, ls: seq<Label>, master: Guest)
    requires IsRun(s, ls, master) && w < |s.workers| && s.workers[w].blocking
    requires Work(w, ClearFlags) !in ls
    ensures w < |After(s, ls, master).workers| && After(s, ls, master).workers[w].blocking
    ensures forall i | 0 <= i < |ls| :: !(ls[i].Work? && ls[i].w == w && ls[i].step.Accept?)
    decreases |ls|
  {
    if ls != [] {
      assert ls[0] in ls;
      GateHeld(Next(s, ls[0], master), w, ls[1..], master);
      assert forall i | 1 <= i < |ls| :: ls[i] == ls[1..][i - 1];
    }
  }

  predicate PastMachineReset(f: Vm) {
    InReset(f, Callback) || InReset(f, Flags)
  }

  /** The flags are not cleared before the machine has been reset. */
  lemma {:induction false} NoClearBeforeReset(s: Server, w: nat, ls: seq<Label>, master: Guest)
    requires IsRun(s, ls, master) && w < |s.workers| && !PastMachineReset(s.workers[w])
    requires Work(w, MachineReset) !in ls
    ensures Work(w, ClearFlags) !in ls
    decreases |ls|
  {
    if ls != [] {
      assert ls[0] in ls;
      NoClearBeforeReset(Next(s, ls[0], master), w, ls[1..], master);
    }
  }

  lemma NothingBefore(a: Label, mid: seq<Label>, b: Label)
    ensures [a] + mid + [b] == [] + [a] + (mid + [b])
  {}

  lemma NothingAfter(mid: seq<Label>, b: Label)
    ensures mid + [b] == mid + [b] + []
  {}

  /** Where the flags are cleared, the machine was reset before. */
  lemma ResetThenClear(t: Server, w: nat, mid: seq<Label>, j: nat, master: Guest) returns (i: nat)
    requires IsRun(t, mid, master) && w < |t.workers| && !PastMachineReset(t.workers[w])
    requires j < |mid| && mid[j] == Work(w, ClearFlags)
    ensures i < j && mid[i] == Work(w, MachineReset)
  {
    var upTo := mid[..j + 1];
    assert upTo + mid[j + 1..] == mid;
    RunAppend(t, upTo, mid[j + 1..], master);
    assert upTo[j] == Work(w, ClearFlags);
    if Work(w, MachineReset) !in upTo {
      NoClearBeforeReset(t, w, upTo, master);
    }
    i :| 0 <= i < |upTo| && upTo[i] == Work(w, MachineReset);
    assert i != j;
  }

  /** Behind a closed gate the flags are cleared before anything is accepted. */
  lemma ClearedBeforeAccept(t: Server, w: nat, mid: seq<Label>, c: Conn, v: int, master: Guest)
    requires IsRun(t, mid + [Work(w, Accept(c, v))], master) && w < |t.workers| && t.workers[w].blocking
    ensures Work(w, ClearFlags) in mid
  {
    NothingAfter(mid, Work(w, Accept(c, v)));
    RunSplit(t, mid, Work(w, Accept(c, v)), [], master);
    if Work(w, ClearFlags) !in mid {
      GateHeld(t, w, mid, master);
    }
  }

  lemma AcceptClosesGate(s: Server, w: nat, c: Conn, v: int, master: Guest)
    requires Inv(s, master) && CanDo(s, Work(w, Accept(c, v)))
    ensures var t := Next(s, Work(w, Accept(c, v)), master);
            w < |t.workers| && t.workers[w].blocking && !PastMachineReset(t.workers[w])
  {
    assert Sound(s.workers[w], master);
  }

  /** Between two connections accepted by one worker its machine was reset and then its flags were cleared. */
  lemma ResetBetweenAccepts(s: Server, w: nat, c: Conn, v: int, mid: seq<Label>, c': Conn, v': int, master: Guest)
    requires Inv(s, master) && IsRun(s, [Work(w, Accept(c, v))] + mid + [Work(w, Accept(c', v'))], master)
    ensures exists i, j | 0 <= i < j < |mid| :: mid[i] == Work(w, MachineReset) && mid[j] == Work(w, ClearFlags)
  {
    var last := Work(w, Accept(c', v'));
    NothingBefore(Work(w, Accept(c, v)), mid, last);
    RunSplit(s, [], Work(w, Accept(c, v)), mid + [last], master);
    var t := Next(s, Work(w, Accept(c, v)), master);
    AcceptClosesGate(s, w, c, v, master);
    ClearedBeforeAccept(t, w, mid, c', v', master);
    RunAppend(t, mid, [last], master);
    var j :| 0 <= j < |mid| && mid[j] == Work(w, ClearFlags);
    var i := ResetThenClear(t, w, mid, j, master);
  }

  /** The guest has run and no reset has been attempted since. */
  predicate OwesReset(f: Vm) {
    f.pc == Returned || InReset(f, Machine)
  }

  predicate Attempt(l: Label, w: nat) {
    l.Work? && l.w == w && (l.step.MachineReset? || l.step.MachineThrow?)
  }

  lemma {:induction false} NoResumeBeforeAttempt(s: Server, w: nat, ls: seq<Label>, master: Guest)
    requires IsRun(s, ls, master) && w < |s.workers| && OwesReset(s.workers[w])
    requires forall i | 0 <= i < |ls| :: !Attempt(ls[i], w)
    ensures Work(w, Resume) !in ls
    decreases |ls|
  {
    if ls != [] {
      assert !Attempt(ls[0], w);
      var rest := ls[1..];
      assert forall i | 0 <= i < |rest| :: rest[i] == ls[i + 1];
      NoResumeBeforeAttempt(Next(s, ls[0], master), w, rest, master);
    }
  }

  /**
   However a guest run ends, by returning or by an exception and with a fresh or a stale reset-needed flag, a reset
   is attempted before the guest runs again.
   */
  lemma ResetBetweenRuns(s: Server, w: nat, end: Step, mid: seq<Label>, master: Guest)
    requires end == VmReturn || end == VmThrow
    requires IsRun(s, [Work(w, end)] + mid + [Work(w, Resume)], master)
    ensures exists i | 0 <= i < |mid| :: Attempt(mid[i], w)
  {
    var rest := mid + [Work(w, Resume)];
    NothingBefore(Work(w, end), mid, Work(w, Resume));
    RunSplit(s, [], Work(w, end), rest, master);
    var t := Next(s, Work(w, end), master);
    assert rest[|mid|] == Work(w, Resume);
    if forall i | 0 <= i < |mid| :: !Attempt(mid[i], w) {
      assert forall i | 0 <= i < |mid| :: rest[i] == mid[i];
      NoResumeBeforeAttempt(t, w, rest, master);
    }
  }

  // ---------------------------------------------------------------- no connection is served twice

  /** A connection that has left the queue does not come back to it. */
  lemma {:induction false} NeverQueuedAgain(s: Server, c: Conn, ls: seq<Label>, master: Guest)
    requires IsRun(s, ls, master) && c in s.arrived && c !in s.queue
    ensures forall i | 0 <= i < |ls| :: !(ls[i].Work? && ls[i].step.Accept? && ls[i].step.conn == c)
    decreases |ls|
  {
    if ls != [] {
      NeverQueuedAgain(Next(s, ls[0], master), c, ls[1..], master);
      assert forall i | 1 <= i < |ls| :: ls[i] == ls[1..][i - 1];
    }
  }

  /** After any accept of a connection, no worker accepts it again. */
  lemma AcceptedOnce(n: nat, master: Guest, pre: seq<Label>, w: nat, c: Conn, v: int, post: seq<Label>)
    requires IsRun(Start(n, master), pre + [Work(w, Accept(c, v))] + post, master)
    ensures forall i | 0 <= i < |post| :: !(post[i].Work? && post[i].step.Accept? && post[i].step.conn == c)
  {
    var s0 := Start(n, master);
    RunSplit(s0, pre, Work(w, Accept(c, v)), post, master);
    Safety(n, master, pre);
    AcceptLeavesQueue(After(s0, pre, master), w, c, v, master);
    NeverQueuedAgain(Next(After(s0, pre, master), Work(w, Accept(c, v)), master), c, post, master);
  }

  lemma AcceptLeavesQueue(s: Server, w: nat, c: Conn, v: int, master: Guest)
    requires Inv(s, master) && CanDo(s, Work(w, Accept(c, v)))
    ensures var t := Next(s, Work(w, Accept(c, v)), master); c in t.arrived && c !in t.queue
  {
    assert s.queue == [c] + s.queue[1..];
    assert Places(s, c) <= 1;
    assert c !in s.queue[1..] by {
      assert multiset(s.queue)[c] == 1 + multiset(s.queue[1..])[c];
    }
  }

  /** What a label adds to the queue, and what it takes from it. */
  function Came(l: Label): seq<Conn> {
    if l.Arrive? then [l.conn] else []
  }

  function Went(l: Label): seq<Conn> {
    if l.Work? && l.step.Accept? then [l.step.conn] else []
  }

  function Arrivals(ls: seq<Label>): seq<Conn> {
    if ls == [] then [] else Came(ls[0]) + Arrivals(ls[1..])
  }

  function Accepts(ls: seq<Label>): seq<Conn> {
    if ls == [] then [] else Went(ls[0]) + Accepts(ls[1..])
  }

  lemma QueueStep(s: Server, l: Label, master: Guest)
    requires CanDo(s, l)
    ensures s.queue + Came(l) == Went(l) + Next(s, l, master).queue
  {}

  lemma Reassociate(q: seq<Conn>, came: seq<Conn>, a: seq<Conn>, went: seq<Conn>, r: seq<Conn>, b: seq<Conn>, last: seq<Conn>)
    requires q + came == went + r && r + a == b + last
    ensures q + (came + a) == (went + b) + last
  {
    assert q + (came + a) == (q + came) + a == (went + r) + a == went + (r + a) == went + (b + last) == (went + b) + last;
  }

  /** Connections are accepted in the order in which they arrived, whichever workers accept them, and none is passed over. */
  lemma {:induction false} AcceptedInOrder(s: Server, ls: seq<Label>, master: Guest)
    requires IsRun(s, ls, master)
    ensures s.queue + Arrivals(ls) == Accepts(ls) + After(s, ls, master).queue
    decreases |ls|
  {
    if ls != [] {
      var t := Next(s, ls[0], master);
      QueueStep(s, ls[0], master);
      AcceptedInOrder(t, ls[1..], master);
      Reassociate(s.queue, Came(ls[0]), Arrivals(ls[1..]), Went(ls[0]), t.queue, Accepts(ls[1..]), After(s, ls, master).queue);
    }
  }

  // ---------------------------------------------------------------- every client can be served

  /** A step that brings a worker nearer to its next resume. */
  function Onward(f: Vm): Step
    requires f.pc != Resuming
  {
    match f.pc
    case InGuest => VmThrow
    case Returned => Check
    case LoopReset(Machine) => MachineReset
    case MainReset(Machine) => MachineReset
    case LoopReset(Callback) => CallbackReturn
    case MainReset(Callback) => CallbackReturn
    case LoopReset(Flags) => ClearFlags
    case MainReset(Flags) => ClearFlags
    case ResetDone => Acknowledge
  }

  function Distance(pc: Pc): nat {
    match pc
    case Resuming => 0
    case ResetDone => 1
    case MainReset(stage) => Stages(stage)
    case LoopReset(stage) => Stages(stage) + 1
    case InGuest => 4
    case Returned => 5
  }

  function Stages(stage: Stage): nat {
    match stage
    case Flags => 1
    case Callback => 2
    case Machine => 3
  }

  /** One step of one worker that takes nothing from the queue. */
  lemma Advance(s: Server, w: nat, step: Step, master: Guest) returns (t: Server)
    requires w < |s.workers| && Enabled(s.workers[w], step) && !step.Accept?
    ensures IsRun(s, [Work(w, step)], master) && After(s, [Work(w, step)], master) == t
    ensures t.queue == s.queue && |t.workers| == |s.workers| && t.workers[w] == Do(s.workers[w], step, master)
  {
    var l := Work(w, step);
    assert [l][1..] == [];
    t := Next(s, l, master);
  }

  ghost function Landed(f: Vm, master: Guest): Vm
    decreases Distance(f.pc)
  {
    if f.pc == Resuming then f else Landed(Do(f, Onward(f), master), master)
  }

  /** From wherever it is, a worker can get to its next resume. */
  lemma {:induction false} ToResume(s: Server, w: nat, master: Guest) returns (ls: seq<Label>)
    requires w < |s.workers|
    ensures IsRun(s, ls, master)
    ensures var t := After(s, ls, master);
            t.queue == s.queue && |t.workers| == |s.workers| && t.workers[w] == Landed(s.workers[w], master)
    decreases Distance(s.workers[w].pc)
  {
    ls := [];
    if s.workers[w].pc != Resuming {
      var step := Onward(s.workers[w]);
      var t := Advance(s, w, step, master);
      var rest := ToResume(t, w, master);
      ls := [Work(w, step)] + rest;
      RunAppend(s, [Work(w, step)], rest, master);
    }
  }

  lemma {:induction false} LandsResuming(f: Vm, master: Guest)
    ensures Landed(f, master).pc == Resuming
    decreases Distance(f.pc)
  {
    if f.pc != Resuming {
      LandsResuming(Do(f, Onward(f), master), master);
    }
  }

  /** A worker in its guest goes through a whole reset on its way. */
  lemma LandsReset(f: Vm, master: Guest)
    requires f.pc == InGuest
    ensures Landed(f, master) == f.(pc := Resuming, guest := master, trackedFd := -1, trackedVfd := -1, blocking := false)
  {
    var a := Do(f, VmThrow, master);
    var b := Do(a, MachineReset, master);
    var c := Do(b, CallbackReturn, master);
    var d := Do(c, ClearFlags, master);
    assert Landed(d, master) == d;
    assert Landed(c, master) == d;
    assert Landed(b, master) == d;
    assert Landed(a, master) == d;
  }

  /**
   The converse of isolation.  From every reachable state a run goes on in which any given worker takes the first connection
   of the queue and reads what it sent: its guest is then the master with that connection and that input.
   */
  lemma EveryClientCanBeServed(s: Server, w: nat, data: int, master: Guest) returns (ls: seq<Label>, managed: int)
    requires Inv(s, master) && w < |s.workers| && s.queue != []
    ensures IsRun(s, ls, master) && managed !in master.fds
    ensures var t := After(s, ls, master);
            && w < |t.workers| && t.workers[w].trackedFd == s.queue[0] && t.queue == s.queue[1..]
            && t.workers[w].guest == Guest(master.fds[managed := s.queue[0]], master.inputs + [Received(s.queue[0], data)])
            && Touched(t.workers[w].guest) == Touched(master) + {s.queue[0]}
  {
    var c := s.queue[0];
    assert c in s.arrived by {
      assert multiset(s.queue)[c] > 0;
      assert Places(s, c) > 0;
    }
    managed := NextDescriptor(master.fds.Keys);
    var again := ToFreshGuest(s, w, master);
    var u := After(s, again, master);
    RunKeepsInv(s, again, master);
    var last := AcceptAndRead(u, w, c, managed, data, master);
    RunAppend(s, again, last, master);
    ls := again + last;
    TouchedByInput(Guest(master.fds[managed := c], master.inputs), Received(c, data));
    TouchedByAccept(master, managed, c);
  }

  /** Resumed once more and reset, a worker is in its guest, which is the master, with an open gate. */
  lemma ToFreshGuest(s: Server, w: nat, master: Guest) returns (ls: seq<Label>)
    requires w < |s.workers|
    ensures IsRun(s, ls, master)
    ensures var t := After(s, ls, master);
            && t.queue == s.queue && |t.workers| == |s.workers| && t.workers[w].pc == InGuest
            && t.workers[w].guest == master && !t.workers[w].blocking && t.workers[w].trackedVfd == -1
  {
    var a := ToResume(s, w, master);
    var s1 := After(s, a, master);
    LandsResuming(s.workers[w], master);
    var s2 := Advance(s1, w, Resume, master);
    LandsReset(s2.workers[w], master);
    var b := ToResume(s2, w, master);
    var s3 := After(s2, b, master);
    var s4 := Advance(s3, w, Resume, master);
    RunAppend(s, a, [Work(w, Resume)], master);
    RunAppend(s, a + [Work(w, Resume)], b, master);
    RunAppend(s, a + [Work(w, Resume)] + b, [Work(w, Resume)], master);
    ls := a + [Work(w, Resume)] + b + [Work(w, Resume)];
  }

  lemma AcceptAndRead(s: Server, w: nat, c: Conn, managed: int, data: int, master: Guest) returns (ls: seq<Label>)
    requires w < |s.workers| && s.workers[w].pc == InGuest && s.workers[w].guest == master
    requires !s.workers[w].blocking && s.workers[w].trackedVfd == -1
    requires s.queue != [] && s.queue[0] == c >= 0 && managed >= 0 && managed !in master.fds
    ensures IsRun(s, ls, master)
    ensures var t := After(s, ls, master);
            && |t.workers| == |s.workers| && t.workers[w].trackedFd == c && t.queue == s.queue[1..]
            && t.workers[w].guest == Guest(master.fds[managed := c], master.inputs + [Received(c, data)])
  {
    var accept := Work(w, Accept(c, managed));
    assert [accept][1..] == [];
    var t := Next(s, accept, master);
    var u := Advance(t, w, Receive(managed, data), master);
    RunAppend(s, [accept], [Work(w, Receive(managed, data))], master);
    ls := [accept] + [Work(w, Receive(managed, data))];
  }

  lemma TouchedByAccept(g: Guest, managed: int, c: Conn)
    requires managed !in g.fds
    ensures Touched(Guest(g.fds[managed := c], g.inputs)) == Touched(g) + {c}
  {
    var h := Guest(g.fds[managed := c], g.inputs);
    assert forall v | v in g.fds :: v in h.fds && h.fds[v] == g.fds[v];
    assert managed in h.fds && h.fds[managed] == c;
  }
}

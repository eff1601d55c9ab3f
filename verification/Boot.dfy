/**
 The master VM until it can be forked: the callbacks that `initialize` installs while the program boots
 (src/vm.cpp:480-541), those that `warmup` installs afterwards (src/warmup.cpp:18-105), and the warmup client
 (src/warmup.cpp:188-204).  Runs are sequences of what the guest, the warmup client and other clients do.
 */
module Boot {
  import opened Wrappers
  import opened Descriptors

  datatype PollMethod = Undefined | Blocking | Poll | Epoll

  datatype Act =
    | Listens(vfd: int, fd: int, valid: bool)      // `valid`: what validate_listener says
    | EpollWaits(watched: set<int>)
    | Polls(fds: seq<int>)
    | CallsAccept(vfd: int, nonblocking: bool)
    | Takes(managed: int)                          // accept4 returns a connection, which is given this descriptor
    | Opens(vfd: int)                              // the guest gets any other descriptor
    | Closes(vfd: int)
    | ClientConnects(succeeds: bool)               // the next connection of the warmup client
    | StrangerConnects                             // a connection from anybody else

  /** A system call in which the guest is paused, and the descriptors it waits for. */
  datatype Wait = Wait(how: PollMethod, on: set<int>)

  /** The descriptor table, the accept queue, and the loop of the warmup client. */
  datatype World = World(open: set<int>, backlog: nat, made: nat, quit: bool)

  datatype State = State(
    poll: PollMethod, waiting: bool, trackedVfd: int, trackedFd: int, paused: Option<Wait>,
    freed: nat, accepted: set<int>, world: World)

  /** Which callbacks are installed; a warmup is one of `n` connections. */
  datatype Phase = Booting | Warming(n: nat)

  function Fresh(open: set<int>): State {
    State(Undefined, false, -1, -1, None, 0, {}, World(open, 0, 0, false))
  }

  /** The system call an act is, if it is one that can wait for connections. */
  function WaitOf(a: Act): Option<Wait> {
    match a
    case EpollWaits(watched) => Some(Wait(Epoll, watched))
    case Polls(fds) => Some(Wait(Poll, set v | v in fds))
    case CallsAccept(vfd, _) => Some(Wait(Blocking, {vfd}))
    case _ => None
  }

  /** The callback of this act stops the machine. */
  predicate Stops(s: State, a: Act, phase: Phase) {
    match phase
    case Booting =>
      s.trackedVfd != -1 && (
        match a
        case EpollWaits(watched) => s.trackedVfd in watched
        case Polls(fds) => s.trackedVfd in fds
        case CallsAccept(vfd, nonblocking) => s.poll == Undefined && vfd == s.trackedVfd && !nonblocking
        case _ => false)
    case Warming(n) => Waits(a, s.poll) && s.freed >= n
  }

  /** The acts that end a warmup once there have been enough connections. */
  predicate Waits(a: Act, poll: PollMethod) {
    a.EpollWaits? || a.Polls? || (a.CallsAccept? && poll == Blocking)
  }

  /** A machine that was stopped does nothing; the client makes its connections one after the other. */
  predicate CanDo(s: State, a: Act, phase: Phase) {
    match a
    case Takes(managed) => !s.waiting && s.world.backlog > 0 && managed >= 0 && managed !in s.world.open
    case Opens(vfd) => !s.waiting && vfd >= 0 && vfd !in s.world.open
    case Closes(vfd) => !s.waiting && vfd in s.world.open
    case ClientConnects(_) => phase.Warming? && !s.world.quit && s.world.made < phase.n
    case StrangerConnects => true
    case _ => !s.waiting
  }

  function InWorld(w: World, a: Act): World {
    match a
    case Takes(managed) => w.(open := w.open + {managed}, backlog := if w.backlog > 0 then w.backlog - 1 else 0)
    case Opens(vfd) => w.(open := w.open + {vfd})
    case Closes(vfd) => w.(open := w.open - {vfd})
    case ClientConnects(true) => w.(backlog := w.backlog + 1, made := w.made + 1)
    case ClientConnects(false) => w.(quit := true)
    case StrangerConnects => w.(backlog := w.backlog + 1)
    case _ => w
  }

  function Do(s: State, a: Act, phase: Phase): State {
    var t := s.(world := InWorld(s.world, a));
    if Stops(s, a, phase) then
      t.(poll := if phase.Booting? && WaitOf(a).Some? then WaitOf(a).value.how else s.poll, waiting := true, paused := WaitOf(a))
    else
      match a
      case Listens(vfd, fd, true) => t.(trackedVfd := vfd, trackedFd := fd)
      case Takes(managed) => if phase.Warming? then t.(accepted := s.accepted + {managed}) else t
      case Closes(vfd) =>
        if phase.Warming? && vfd in s.accepted then t.(accepted := s.accepted - {vfd}, freed := s.freed + 1) else t
      case _ => t
  }

  ghost predicate IsRun(s: State, acts: seq<Act>, phase: Phase) {
    acts != [] ==>
      var before := acts[..|acts| - 1];
      IsRun(s, before, phase) && CanDo(After(s, before, phase), acts[|acts| - 1], phase)
  }

  ghost function After(s: State, acts: seq<Act>, phase: Phase): State {
    if acts == [] then s else Do(After(s, acts[..|acts| - 1], phase), acts[|acts| - 1], phase)
  }

  // ---------------------------------------------------------------- boot

  /** The machine is paused waiting for the listener, by the method on record; or it has not stopped and none is on record. */
  predicate Settled(s: State) {
    if s.waiting then
      s.poll != Undefined && s.paused.Some? && s.paused.value.how == s.poll && s.trackedVfd in s.paused.value.on
    else
      s.poll == Undefined && s.paused.None?
  }

  lemma {:induction false} BootSettles(open: set<int>, acts: seq<Act>)
    requires IsRun(Fresh(open), acts, Booting)
    ensures Settled(After(Fresh(open), acts, Booting))
    ensures var w := After(Fresh(open), acts, Booting).world; w.made == 0 && !w.quit
    decreases |acts|
  {
    if acts != [] {
      BootSettles(open, acts[..|acts| - 1]);
    }
  }

  /** The listener tracked after these acts: the last valid one. */
  function LastListener(vfd: int, acts: seq<Act>): int {
    if acts == [] then vfd
    else
      match acts[|acts| - 1]
      case Listens(v, _, true) => v
      case _ => LastListener(vfd, acts[..|acts| - 1])
  }

  /** The act waits for connections on this listener. */
  predicate Awaits(a: Act, listener: int) {
    listener != -1 &&
    match a
    case EpollWaits(watched) => listener in watched
    case Polls(fds) => listener in fds
    case CallsAccept(vfd, nonblocking) => vfd == listener && !nonblocking
    case _ => false
  }

  predicate OfKind(a: Act, poll: PollMethod) {
    match a
    case EpollWaits(_) => poll == Epoll
    case Polls(_) => poll == Poll
    case CallsAccept(_, _) => poll == Blocking
    case _ => false
  }

  /** Act number `i` is the first that waits for the last valid listener before it. */
  predicate FirstAwait(acts: seq<Act>, i: int) {
    && 0 <= i < |acts| && Awaits(acts[i], LastListener(-1, acts[..i]))
    && forall j | 0 <= j < i :: !Awaits(acts[j], LastListener(-1, acts[..j]))
  }

  predicate NoAwaitYet(acts: seq<Act>) {
    forall j | 0 <= j < |acts| :: !Awaits(acts[j], LastListener(-1, acts[..j]))
  }

  lemma StillFirstAwait(acts: seq<Act>, m: nat, i: nat)
    requires m == |acts| - 1
    ensures FirstAwait(acts[..m], i) ==> FirstAwait(acts, i) && acts[..m][i] == acts[i]
    ensures NoAwaitYet(acts[..m]) && Awaits(acts[m], LastListener(-1, acts[..m])) ==> FirstAwait(acts, m)
    ensures NoAwaitYet(acts[..m]) && !Awaits(acts[m], LastListener(-1, acts[..m])) ==> NoAwaitYet(acts)
  {
    assert forall j | 0 <= j < m :: acts[..m][..j] == acts[..j] && acts[..m][j] == acts[j];
  }

  /** What a step of the boot does, of the callbacks that can stop it. */
  lemma BootStep(t: State, a: Act)
    requires Settled(t) && CanDo(t, a, Booting)
    ensures var u := Do(t, a, Booting);
            && (!t.waiting && Awaits(a, t.trackedVfd) ==>
                  u.waiting && OfKind(a, u.poll) && u.paused == WaitOf(a) && u.trackedVfd == t.trackedVfd)
            && (t.waiting || !Awaits(a, t.trackedVfd) ==> u.waiting == t.waiting && u.poll == t.poll && u.paused == t.paused)
            && (!t.waiting ==> u.trackedVfd == if a.Listens? && a.valid then a.vfd else t.trackedVfd)
  {}

  /**
   A boot stops in the first act that waits for the listener, whichever way it waits, and with that method on record; and
   goes on as long as there is none.
   */
  lemma {:induction false} BootStopsAtFirstWait(open: set<int>, acts: seq<Act>) returns (i: nat)
    requires IsRun(Fresh(open), acts, Booting)
    ensures var t := After(Fresh(open), acts, Booting);
            if t.waiting then FirstAwait(acts, i) && OfKind(acts[i], t.poll) && t.paused == WaitOf(acts[i])
            else NoAwaitYet(acts) && t.trackedVfd == LastListener(-1, acts)
    decreases |acts|
  {
    i := 0;
    if acts != [] {
      var m := |acts| - 1;
      i := BootStopsAtFirstWait(open, acts[..m]);
      BootSettles(open, acts[..m]);
      BootStep(After(Fresh(open), acts[..m], Booting), acts[m]);
      StillFirstAwait(acts, m, i);
      if !After(Fresh(open), acts[..m], Booting).waiting {
        i := m;
      }
    }
  }

  /** So it has stopped exactly if there was such an act. */
  lemma BootStops(open: set<int>, acts: seq<Act>)
    requires IsRun(Fresh(open), acts, Booting)
    ensures After(Fresh(open), acts, Booting).waiting <==> exists i :: FirstAwait(acts, i)
  {
    var i := BootStopsAtFirstWait(open, acts);
  }

  /** Every way of waiting for the listener is a way to boot. */
  lemma EveryKindBoots(open: set<int>, vfd: int, fd: int, a: Act)
    requires Awaits(a, vfd)
    ensures var acts := [Listens(vfd, fd, true), a];
            && IsRun(Fresh(open), acts, Booting) && After(Fresh(open), acts, Booting).waiting
            && OfKind(a, After(Fresh(open), acts, Booting).poll) && After(Fresh(open), acts, Booting).trackedVfd == vfd
  {
    var l := Listens(vfd, fd, true);
    var none: seq<Act> := [];
    OneMore(Fresh(open), none, l, [l], Booting);
    OneMore(Fresh(open), [l], a, [l, a], Booting);
  }

  // ---------------------------------------------------------------- warmup

  /** What `warmup` does before the machine runs on. */
  function WarmupStart(s: State): State {
    s.(waiting := false, paused := None, freed := 0, accepted := {})
  }

  function Taken(acts: seq<Act>): nat {
    if acts == [] then 0 else Taken(acts[..|acts| - 1]) + if acts[|acts| - 1].Takes? then 1 else 0
  }

  /** The descriptors of connections taken and not closed since. */
  function StillOpen(acts: seq<Act>): set<int> {
    if acts == [] then {} else OpenAfter(StillOpen(acts[..|acts| - 1]), acts[|acts| - 1])
  }

  function OpenAfter(open: set<int>, a: Act): set<int> {
    match a
    case Takes(managed) => open + {managed}
    case Closes(vfd) => open - {vfd}
    case _ => open
  }

  function Strangers(acts: seq<Act>): nat {
    if acts == [] then 0 else Strangers(acts[..|acts| - 1]) + if acts[|acts| - 1].StrangerConnects? then 1 else 0
  }

  /** The counters agree with what happened, and nothing of the method found by the boot changes. */
  predicate Tallied(t: State, taken: nat, open: set<int>, n: nat, poll: PollMethod) {
    && taken == t.freed + |t.accepted| && t.accepted == open <= t.world.open
    && t.poll == poll && (t.waiting ==> t.freed >= n) && (t.waiting <==> t.paused.Some?)
  }

  lemma StepTallied(t: State, a: Act, taken: nat, open: set<int>, n: nat, poll: PollMethod)
    requires Tallied(t, taken, open, n, poll) && CanDo(t, a, Warming(n))
    ensures Tallied(Do(t, a, Warming(n)), taken + (if a.Takes? then 1 else 0), OpenAfter(open, a), n, poll)
  {}

  /** Every connection taken was closed or is still open. */
  lemma {:induction false} Accounting(s: State, acts: seq<Act>, n: nat)
    requires IsRun(WarmupStart(s), acts, Warming(n))
    ensures Tallied(After(WarmupStart(s), acts, Warming(n)), Taken(acts), StillOpen(acts), n, s.poll)
    decreases |acts|
  {
    if acts != [] {
      var before, a := acts[..|acts| - 1], acts[|acts| - 1];
      Accounting(s, before, n);
      StepTallied(After(WarmupStart(s), before, Warming(n)), a, Taken(before), StillOpen(before), n, s.poll);
    }
  }

  lemma StepMade(t: State, a: Act, n: nat)
    requires CanDo(t, a, Warming(n)) && t.world.made <= n
    ensures var w := Do(t, a, Warming(n)).world;
            w.made <= n && (if a.Takes? then 1 else 0) + w.backlog - w.made
                             == t.world.backlog - t.world.made + (if a.StrangerConnects? then 1 else 0)
  {}

  /** Connections taken or queued were queued before or made by somebody. */
  lemma {:induction false} TakenWereMade(s: State, acts: seq<Act>, n: nat)
    requires IsRun(WarmupStart(s), acts, Warming(n)) && s.world.made <= n
    ensures var w := After(WarmupStart(s), acts, Warming(n)).world;
            w.made <= n && Taken(acts) + w.backlog == s.world.backlog + w.made - s.world.made + Strangers(acts)
    decreases |acts|
  {
    if acts != [] {
      TakenWereMade(s, acts[..|acts| - 1], n);
      StepMade(After(WarmupStart(s), acts[..|acts| - 1], Warming(n)), acts[|acts| - 1], n);
    }
  }

  /** A stop leaves no more sockets, open or queued, than strangers came. */
  lemma OpenAtStop(s: State, acts: seq<Act>, n: nat)
    requires IsRun(WarmupStart(s), acts, Warming(n)) && s.world.made == 0
    requires After(WarmupStart(s), acts, Warming(n)).waiting
    ensures |StillOpen(acts)| + After(WarmupStart(s), acts, Warming(n)).world.backlog <= s.world.backlog + Strangers(acts)
  {
    Accounting(s, acts, n);
    TakenWereMade(s, acts, n);
  }

  /** With the warmup client alone, a stop means `n` connections closed, none open, none queued, none to come. */
  lemma SingleClient(s: State, acts: seq<Act>, n: nat)
    requires IsRun(WarmupStart(s), acts, Warming(n)) && Strangers(acts) == 0
    requires s.world.made == 0 && s.world.backlog == 0
    requires After(WarmupStart(s), acts, Warming(n)).waiting
    ensures var t := After(WarmupStart(s), acts, Warming(n));
            && t.freed == Taken(acts) == n && t.accepted == StillOpen(acts) == {}
            && t.world.backlog == 0 && t.world.made == n
  {
    Accounting(s, acts, n);
    TakenWereMade(s, acts, n);
  }

  // ---------------------------------------------------------------- strangers

  lemma Extend(s: State, acts: seq<Act>, a: Act, phase: Phase) returns (more: seq<Act>)
    requires IsRun(s, acts, phase) && CanDo(After(s, acts, phase), a, phase)
    ensures IsRun(s, more, phase) && After(s, more, phase) == Do(After(s, acts, phase), a, phase)
    ensures StillOpen(more) == OpenAfter(StillOpen(acts), a)
    ensures Strangers(more) == Strangers(acts) + if a.StrangerConnects? then 1 else 0
  {
    more := acts + [a];
    OneMore(s, acts, a, more, phase);
  }

  lemma OneMore(s: State, acts: seq<Act>, a: Act, more: seq<Act>, phase: Phase)
    requires IsRun(s, acts, phase) && CanDo(After(s, acts, phase), a, phase)
    requires |more| == |acts| + 1 && more[..|acts|] == acts && more[|acts|] == a
    ensures IsRun(s, more, phase) && After(s, more, phase) == Do(After(s, acts, phase), a, phase)
    ensures StillOpen(more) == OpenAfter(StillOpen(acts), a)
    ensures Strangers(more) == Strangers(acts) + if a.StrangerConnects? then 1 else 0
  {}

  /** The connections in `stay` have been taken and stay open, and the client has been served `j` times besides. */
  ghost predicate Rounds(s: State, acts: seq<Act>, n: nat, stay: set<int>, j: nat) {
    && IsRun(WarmupStart(s), acts, Warming(n)) && StillOpen(acts) == stay
    && var t := After(WarmupStart(s), acts, Warming(n));
       && !t.waiting && t.poll == s.poll && t.trackedVfd == s.trackedVfd && t.freed == j && t.accepted == stay
       && t.world.open == s.world.open + stay && t.world.made == j && !t.world.quit
  }

  lemma OneRound(s: State, acts: seq<Act>, n: nat, a: int, stay: set<int>, j: nat) returns (more: seq<Act>)
    requires Rounds(s, acts, n, stay, j) && j < n && a >= 0 && a !in s.world.open + stay
    ensures Rounds(s, more, n, stay, j + 1) && Strangers(more) == Strangers(acts)
  {
    more := Extend(WarmupStart(s), acts, ClientConnects(true), Warming(n));
    more := Extend(WarmupStart(s), more, Takes(a), Warming(n));
    more := Extend(WarmupStart(s), more, Closes(a), Warming(n));
  }

  lemma {:induction false} AllRounds(s: State, acts: seq<Act>, n: nat, a: int, stay: set<int>, j: nat) returns (more: seq<Act>)
    requires Rounds(s, acts, n, stay, j) && j <= n && a >= 0 && a !in s.world.open + stay
    ensures Rounds(s, more, n, stay, n) && Strangers(more) == Strangers(acts)
    decreases n - j
  {
    more := acts;
    if j < n {
      more := OneRound(s, acts, n, a, stay, j);
      more := AllRounds(s, more, n, a, stay, j + 1);
    }
  }

  /** The guest waits for its listener in the way it was found waiting. */
  function WaitsAgain(s: State): Act {
    match s.poll
    case Blocking => CallsAccept(s.trackedVfd, false)
    case Poll => Polls([s.trackedVfd])
    case _ => EpollWaits({s.trackedVfd})
  }

  lemma StrangerTaken(s: State, n: nat, b: int) returns (acts: seq<Act>)
    requires s.world.made == 0 && !s.world.quit && b >= 0 && b !in s.world.open
    ensures Rounds(s, acts, n, {b}, 0) && Strangers(acts) == if s.world.backlog > 0 then 0 else 1
  {
    acts := [];
    if s.world.backlog == 0 {
      acts := Extend(WarmupStart(s), acts, StrangerConnects, Warming(n));
    }
    acts := Extend(WarmupStart(s), acts, Takes(b), Warming(n));
  }

  /** One other client is enough, in the queue when the warmup begins or coming later, for its socket to stay open in the master. */
  lemma StrangerLeavesSocket(s: State, n: nat) returns (acts: seq<Act>)
    requires s.world.made == 0 && !s.world.quit && n > 0
    ensures IsRun(WarmupStart(s), acts, Warming(n)) && After(WarmupStart(s), acts, Warming(n)).waiting
    ensures |StillOpen(acts)| == 1 && Strangers(acts) == if s.world.backlog > 0 then 0 else 1
  {
    var b := NextDescriptor(s.world.open);
    var a := NextDescriptor(s.world.open + {b});
    acts := StrangerTaken(s, n, b);
    acts := AllRounds(s, acts, n, a, {b}, 0);
    acts := Extend(WarmupStart(s), acts, WaitsAgain(s), Warming(n));
  }

  /** No warmup with at most `k` strangers leaves a socket open. */
  ghost predicate LeavesNoSocket(s: State, n: nat, k: nat) {
    forall acts | IsRun(WarmupStart(s), acts, Warming(n)) && Strangers(acts) <= k ::
      After(WarmupStart(s), acts, Warming(n)).waiting ==> StillOpen(acts) == {}
  }

  /** That is so exactly if nobody is queued when it begins and nobody else can come. */
  lemma OnlyWithoutStrangers(s: State, n: nat, k: nat)
    requires s.world.made == 0 && !s.world.quit && n > 0
    ensures LeavesNoSocket(s, n, k) <==> s.world.backlog + k == 0
  {
    if s.world.backlog + k == 0 {
      forall acts | IsRun(WarmupStart(s), acts, Warming(n)) && Strangers(acts) <= k
        ensures After(WarmupStart(s), acts, Warming(n)).waiting ==> StillOpen(acts) == {}
      {
        if After(WarmupStart(s), acts, Warming(n)).waiting {
          OpenAtStop(s, acts, n);
        }
      }
    } else {
      var acts := StrangerLeavesSocket(s, n);
      assert Strangers(acts) <= k;
    }
  }

  // ---------------------------------------------------------------- where a warmup stops

  /** How often a tracked connection was closed. */
  function Freed(acts: seq<Act>): nat {
    if acts == [] then 0
    else
      var before := acts[..|acts| - 1];
      var a := acts[|acts| - 1];
      Freed(before) + if a.Closes? && a.vfd in StillOpen(before) then 1 else 0
  }

  /** Act number `i` is the first wait that comes after `n` connections were closed. */
  ghost predicate FirstWait(acts: seq<Act>, i: nat, n: nat, poll: PollMethod) {
    && i < |acts| && Waits(acts[i], poll) && Freed(acts[..i]) >= n
    && forall j | 0 <= j < i && Waits(acts[j], poll) :: Freed(acts[..j]) < n
  }

  lemma {:induction false} FreedIsCounted(s: State, acts: seq<Act>, n: nat)
    requires IsRun(WarmupStart(s), acts, Warming(n))
    ensures After(WarmupStart(s), acts, Warming(n)).freed == Freed(acts)
    decreases |acts|
  {
    if acts != [] {
      FreedIsCounted(s, acts[..|acts| - 1], n);
      Accounting(s, acts[..|acts| - 1], n);
    }
  }

  predicate NoWaitYet(acts: seq<Act>, n: nat, poll: PollMethod) {
    forall j | 0 <= j < |acts| && Waits(acts[j], poll) :: Freed(acts[..j]) < n
  }

  /** A warmup is over exactly when there was such a wait, and then the guest is paused in it. */
  lemma {:induction false} StopsAtFirstWait(s: State, acts: seq<Act>, n: nat) returns (i: nat)
    requires IsRun(WarmupStart(s), acts, Warming(n))
    ensures var t := After(WarmupStart(s), acts, Warming(n));
            if t.waiting then FirstWait(acts, i, n, s.poll) && t.paused == WaitOf(acts[i])
            else NoWaitYet(acts, n, s.poll)
    decreases |acts|
  {
    i := 0;
    if acts != [] {
      var m := |acts| - 1;
      var before := acts[..m];
      i := StopsAtFirstWait(s, before, n);
      FreedIsCounted(s, before, n);
      Accounting(s, before, n);
      StillFirst(acts, m, i, n, s.poll);
      if !After(WarmupStart(s), before, Warming(n)).waiting {
        i := m;
      }
    }
  }

  lemma StillFirst(acts: seq<Act>, m: nat, i: nat, n: nat, poll: PollMethod)
    requires m == |acts| - 1
    ensures FirstWait(acts[..m], i, n, poll) ==> FirstWait(acts, i, n, poll) && acts[i] == acts[..m][i]
    ensures NoWaitYet(acts[..m], n, poll) && Waits(acts[m], poll) && Freed(acts[..m]) >= n ==> FirstWait(acts, m, n, poll)
    ensures NoWaitYet(acts[..m], n, poll) && !(Waits(acts[m], poll) && Freed(acts[..m]) >= n) ==> NoWaitYet(acts, n, poll)
  {
    assert forall j | 0 <= j < m :: acts[..m][..j] == acts[..j] && acts[..m][j] == acts[j];
  }

  lemma {:induction false} TracksLastListener(s: State, acts: seq<Act>, n: nat)
    requires IsRun(WarmupStart(s), acts, Warming(n))
    ensures After(WarmupStart(s), acts, Warming(n)).trackedVfd == LastListener(s.trackedVfd, acts)
    decreases |acts|
  {
    if acts != [] {
      TracksLastListener(s, acts[..|acts| - 1], n);
    }
  }

  /** A stopped machine listens to nothing new. */
  lemma {:induction false} ListenerAtStop(s: State, acts: seq<Act>, n: nat, i: nat)
    requires IsRun(WarmupStart(s), acts, Warming(n)) && FirstWait(acts, i, n, s.poll)
    ensures LastListener(s.trackedVfd, acts) == LastListener(s.trackedVfd, acts[..i])
    decreases |acts|
  {
    var m := |acts| - 1;
    if i < m {
      FirstWaitBefore(acts, m, i, n, s.poll);
      ListenerAtStop(s, acts[..m], n, i);
      var k := StopsAtFirstWait(s, acts[..m], n);
    }
  }

  lemma FirstWaitBefore(acts: seq<Act>, m: nat, i: nat, n: nat, poll: PollMethod)
    requires i < m <= |acts| && FirstWait(acts, i, n, poll)
    ensures FirstWait(acts[..m], i, n, poll) && acts[..m][..i] == acts[..i]
  {
    assert forall j | 0 <= j < m :: acts[..m][..j] == acts[..j] && acts[..m][j] == acts[j];
  }

  /**
   The method on record is the one the guest is paused in exactly when that first wait is of its kind; and the listener is
   waited for exactly when the last valid one before that wait is in its set.
   */
  lemma MethodAfterWarmup(s: State, acts: seq<Act>, n: nat, i: nat)
    requires IsRun(WarmupStart(s), acts, Warming(n)) && FirstWait(acts, i, n, s.poll)
    ensures var t := After(WarmupStart(s), acts, Warming(n));
            && t.waiting && t.paused == WaitOf(acts[i]) && t.poll == s.poll
            && (t.paused.value.how == t.poll <==> OfKind(acts[i], s.poll))
            && (t.trackedVfd in t.paused.value.on <==> LastListener(s.trackedVfd, acts[..i]) in WaitOf(acts[i]).value.on)
  {
    var k := StopsAtFirstWait(s, acts, n);
    Accounting(s, acts, n);
    TracksLastListener(s, acts, n);
    ListenerAtStop(s, acts, n, i);
  }

  /** So the method is right for a guest that waits in one way only. */
  lemma OneKindOfWait(s: State, acts: seq<Act>, n: nat)
    requires IsRun(WarmupStart(s), acts, Warming(n)) && After(WarmupStart(s), acts, Warming(n)).waiting
    requires forall i | 0 <= i < |acts| && Waits(acts[i], s.poll) :: OfKind(acts[i], s.poll)
    ensures var t := After(WarmupStart(s), acts, Warming(n)); t.paused.Some? && t.paused.value.how == t.poll == s.poll
  {
    var i := StopsAtFirstWait(s, acts, n);
    MethodAfterWarmup(s, acts, n, i);
  }

  /** A guest found in `epoll_wait` may be left in `poll`, on a set without the listener. */
  lemma OtherKindOfWait(s: State, n: nat) returns (acts: seq<Act>)
    requires s.poll == Epoll && s.trackedVfd >= 0 && s.world.made == 0 && !s.world.quit && n > 0
    ensures IsRun(WarmupStart(s), acts, Warming(n)) && Strangers(acts) == 0
    ensures var t := After(WarmupStart(s), acts, Warming(n));
            t.waiting && t.poll == Epoll && t.paused == Some(Wait(Poll, {})) && t.trackedVfd !in t.paused.value.on
  {
    var a := NextDescriptor(s.world.open);
    var none: seq<Act> := [];
    acts := AllRounds(s, none, n, a, {}, 0);
    acts := Extend(WarmupStart(s), acts, Polls([]), Warming(n));
    assert WaitOf(Polls([])).value.on == {};
  }

  /** A guest that only ever uses `epoll_wait` may be left in it on a set without the listener. */
  lemma OtherSet(s: State, n: nat) returns (acts: seq<Act>)
    requires s.poll == Epoll && s.world.made == 0 && !s.world.quit && n > 0
    ensures IsRun(WarmupStart(s), acts, Warming(n)) && Strangers(acts) == 0
    ensures After(WarmupStart(s), acts, Warming(n)).paused == Some(Wait(Epoll, {}))
  {
    var a := NextDescriptor(s.world.open);
    var none: seq<Act> := [];
    acts := AllRounds(s, none, n, a, {}, 0);
    acts := Extend(WarmupStart(s), acts, EpollWaits({}), Warming(n));
  }
}

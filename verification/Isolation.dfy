/**
 Two runs of the server compared (src/vm.cpp:348-415, src/main.cpp:200-229): what a client sends reaches the worker that
 serves it and no other.

 One run is turned into another by giving other data to any reads from connections outside a set `keep`, and to what
 failing resets leave behind of such data.
 */
module Isolation {
  import opened Fork
  import opened Protocol

  /** The same input, but for the data of a connection outside `keep`. */
  predicate AlikeInput(i: Input, j: Input, keep: set<Conn>) {
    i == j || (i.Received? && j.Received? && i.conn == j.conn && i.conn !in keep)
  }

  predicate AlikeGuest(g: Guest, h: Guest, keep: set<Conn>) {
    && g.fds == h.fds && |g.inputs| == |h.inputs|
    && forall k | 0 <= k < |g.inputs| :: AlikeInput(g.inputs[k], h.inputs[k], keep)
  }

  predicate AlikeVm(f: Vm, h: Vm, keep: set<Conn>) {
    h == f.(guest := h.guest) && AlikeGuest(f.guest, h.guest, keep)
  }

  predicate AlikeServer(s: Server, t: Server, keep: set<Conn>) {
    && t == s.(workers := t.workers) && |s.workers| == |t.workers|
    && forall w | 0 <= w < |s.workers| :: AlikeVm(s.workers[w], t.workers[w], keep)
  }

  /** The same step, but for the data read from a connection outside `keep`, or left of it by a failing reset. */
  predicate AlikeStep(f: Vm, a: Step, b: Step, keep: set<Conn>) {
    || a == b
    || (a.Receive? && b.Receive? && a.vfd == b.vfd && a.vfd in f.guest.fds && f.guest.fds[a.vfd] !in keep)
    || (a.MachineThrow? && b.MachineThrow? && AlikeGuest(a.left, b.left, keep))
  }

  predicate AlikeLabel(s: Server, l: Label, k: Label, keep: set<Conn>) {
    match l
    case Arrive(_) => l == k
    case Work(w, a) => k.Work? && k.w == w && w < |s.workers| && AlikeStep(s.workers[w], a, k.step, keep)
  }

  /** `ks` is the run `ls` with other data. */
  ghost predicate Altered(s: Server, ls: seq<Label>, ks: seq<Label>, keep: set<Conn>, master: Guest)
    requires IsRun(s, ls, master)
    decreases |ls|
  {
    && |ls| == |ks|
    && (ls != [] ==> AlikeLabel(s, ls[0], ks[0], keep) && Altered(Next(s, ls[0], master), ls[1..], ks[1..], keep, master))
  }

  /** Such guests depend on the same connections, and are equal when they depend on none outside `keep`. */
  lemma AlikeTouched(g: Guest, h: Guest, keep: set<Conn>)
    requires AlikeGuest(g, h, keep)
    ensures Touched(g) == Touched(h)
    ensures Touched(g) <= keep ==> g == h
  {
    forall c
      ensures c in Touched(g) <==> c in Touched(h)
    {
      if k :| 0 <= k < |g.inputs| && g.inputs[k].Received? && g.inputs[k].conn == c {
        assert AlikeInput(g.inputs[k], h.inputs[k], keep);
      }
      if k :| 0 <= k < |h.inputs| && h.inputs[k].Received? && h.inputs[k].conn == c {
        assert AlikeInput(g.inputs[k], h.inputs[k], keep);
      }
    }
    if Touched(g) <= keep {
      forall k | 0 <= k < |g.inputs|
        ensures g.inputs[k] == h.inputs[k]
      {
        assert AlikeInput(g.inputs[k], h.inputs[k], keep);
        if g.inputs[k].Received? {
          assert g.inputs[k].conn in Touched(g);
        }
      }
      assert g.inputs == h.inputs;
    }
  }

  lemma StepAlike(f: Vm, h: Vm, a: Step, b: Step, keep: set<Conn>, master: Guest)
    requires AlikeVm(f, h, keep) && Enabled(f, a) && AlikeStep(f, a, b, keep)
    ensures Enabled(h, b) && AlikeVm(Do(f, a, master), Do(h, b, master), keep)
  {
    AlikeTouched(f.guest, h.guest, keep);
    if a.MachineThrow? && b.MachineThrow? && AlikeGuest(a.left, b.left, keep) {
      AlikeTouched(a.left, b.left, keep);
    }
  }

  lemma NextAlike(s: Server, t: Server, l: Label, k: Label, keep: set<Conn>, master: Guest)
    requires AlikeServer(s, t, keep) && CanDo(s, l) && AlikeLabel(s, l, k, keep)
    ensures CanDo(t, k) && AlikeServer(Next(s, l, master), Next(t, k, master), keep)
  {
    if l.Work? {
      assert AlikeVm(s.workers[l.w], t.workers[l.w], keep);
      StepAlike(s.workers[l.w], t.workers[l.w], l.step, k.step, keep, master);
    }
  }

  /** The altered labels are a run again, through states that differ in that data only. */
  lemma {:induction false} RunAlike(s: Server, t: Server, ls: seq<Label>, ks: seq<Label>, keep: set<Conn>, master: Guest)
    requires AlikeServer(s, t, keep) && IsRun(s, ls, master) && Altered(s, ls, ks, keep, master)
    ensures IsRun(t, ks, master) && AlikeServer(After(s, ls, master), After(t, ks, master), keep)
    decreases |ls|
  {
    if ls != [] {
      NextAlike(s, t, ls[0], ks[0], keep, master);
      RunAlike(Next(s, ls[0], master), Next(t, ks[0], master), ls[1..], ks[1..], keep, master);
    }
  }

  /**
   Noninterference.  Take any run and any connection `c`, and let all other clients, but for those whose connections the
   master itself holds, send other data.  That is a run, with the same queue, arrivals and flags, and every worker that
   serves `c` or nobody ends with the very same guest.
   */
  lemma NoInterference(n: nat, master: Guest, ls: seq<Label>, ks: seq<Label>, c: Conn, w: nat)
    requires IsRun(Start(n, master), ls, master)
    requires Altered(Start(n, master), ls, ks, Touched(master) + {c}, master) && w < n
    ensures IsRun(Start(n, master), ks, master)
    ensures var s, t := After(Start(n, master), ls, master), After(Start(n, master), ks, master);
            && AlikeServer(s, t, Touched(master) + {c})
            && |s.workers| == |t.workers| == n
            && (Serving(s.workers[w]) <= {c} ==> t.workers[w] == s.workers[w])
  {
    var keep := Touched(master) + {c};
    RunAlike(Start(n, master), Start(n, master), ls, ks, keep, master);
    Safety(n, master, ls);
    WorkersStay(Start(n, master), ks, master);
    var s, t := After(Start(n, master), ls, master), After(Start(n, master), ks, master);
    assert Sound(s.workers[w], master) && AlikeVm(s.workers[w], t.workers[w], keep);
    AlikeTouched(s.workers[w].guest, t.workers[w].guest, keep);
  }
}

/**
 Epoll tables after a snapshot is loaded (src/vm_state.cpp:85-123): the listener's descriptor is managed again
 under its old virtual descriptor, put back into the host's epoll sets, and entries that lead nowhere are removed.
 */
module Snapshot {
  type Event = int

  type Table = map<int, Event>

  function Translation(fds: map<int, int>, vfd: int): int {
    if vfd in fds then fds[vfd] else -1
  }

  /** The entries whose descriptors still lead somewhere. */
  function Kept(table: Table, fds: map<int, int>): Table {
    map v | v in table && Translation(fds, v) >= 0 :: table[v]
  }

  /** An entry stays, as it was, exactly if its descriptor is open and leads somewhere. */
  lemma KeptMeans(table: Table, fds: map<int, int>, v: int)
    ensures v in Kept(table, fds) <==> v in table && v in fds && fds[v] >= 0
    ensures v in Kept(table, fds) ==> Kept(table, fds)[v] == table[v]
  {}

  /** `e` is an epoll descriptor for the host's set `h`, and watches the listener. */
  predicate Watches(tables: map<int, Table>, fds: map<int, int>, listener: int, e: int, h: int) {
    e in tables && listener in tables[e] && Translation(fds, e) == h
  }

  /** The host's set `h` has gained `fd` exactly if a table in `done` watches the listener there, with the event of such a table. */
  ghost predicate Rejoined(
    tables: map<int, Table>, fds: map<int, int>, listener: int, fd: int, h: int, done: set<int>, was: Table, now: Table)
  {
    if exists e :: e in done && Watches(tables, fds, listener, e, h) then
      exists e :: e in done && Watches(tables, fds, listener, e, h) && now == was[fd := tables[e][listener]]
    else
      now == was
  }

  /** Which tables and host sets are left when the tables in `todo` are still to be done. */
  ghost predicate Restored(
    tables: map<int, Table>, fds: map<int, int>, listener: int, fd: int, todo: set<int>, now: map<int, Table>,
    host: map<int, Table>, nowHost: map<int, Table>)
  {
    && now.Keys == tables.Keys && nowHost.Keys == host.Keys
    && (forall e | e in now :: now[e] == if e in todo then tables[e] else Kept(tables[e], fds))
    && (forall h | h in host :: Rejoined(tables, fds, listener, fd, h, tables.Keys - todo, host[h], nowHost[h]))
  }

  /** Any element: the order in which a container is walked is not known. */
  method Next<T>(todo: set<T>) returns (v: T)
    requires todo != {}
    ensures v in todo
  {
    v :| v in todo;
  }

  /** The descriptors of a machine: virtual ones, its epoll tables, and the host's epoll sets behind them. */
  class Descriptors {
    var fds: map<int, int>
    var tables: map<int, Table>
    var host: map<int, Table>

    constructor (fds: map<int, int>, tables: map<int, Table>, host: map<int, Table>)
      ensures this.fds == fds && this.tables == tables && this.host == host
    {
      this.fds, this.tables, this.host := fds, tables, host;
    }

    /** EPOLL_CTL_DEL: nothing happens when `fd` is not registered. */
    method EpollDel(epfd: int, fd: int)
      modifies this`host
      ensures host == if epfd in old(host) then old(host)[epfd := old(host)[epfd] - {fd}] else old(host)
    {
      if epfd in host {
        host := host[epfd := host[epfd] - {fd}];
      }
    }

    /** EPOLL_CTL_ADD: nothing happens when `fd` is registered already. */
    method EpollAdd(epfd: int, fd: int, event: Event)
      modifies this`host
      ensures host == if epfd in old(host) && fd !in old(host)[epfd] then old(host)[epfd := old(host)[epfd][fd := event]]
                      else old(host)
    {
      if epfd in host && fd !in host[epfd] {
        host := host[epfd := host[epfd][fd := event]];
      }
    }

    /** The listener's entry in one table: out with the old descriptor, in with the new. */
    method Rejoin(e: int, listener: int, fd: int)
      requires e in tables && listener in tables[e] && Translation(fds, listener) == fd >= 0
      modifies this`host
      ensures var h := Translation(fds, e);
              host == if h in old(host) then old(host)[h := old(host)[h][fd := tables[e][listener]]] else old(host)
    {
      var epfd := Translation(fds, e);
      var oldFd := Translation(fds, listener);
      if oldFd >= 0 {
        EpollDel(epfd, oldFd);
      }
      EpollAdd(epfd, fd, tables[e][listener]);
      assert epfd in host ==> host[epfd] == old(host)[epfd][fd := tables[e][listener]];
    }

    /** Entries are erased while the table is walked, in whatever order. */
    method Prune(e: int)
      requires e in tables
      modifies this`tables
      ensures tables == old(tables)[e := Kept(old(tables)[e], fds)]
    {
      ghost var was := tables[e];
      var todo: set<int> := tables[e].Keys;
      while todo != {}
        invariant todo <= was.Keys && tables.Keys == old(tables).Keys
        invariant tables == old(tables)[e := tables[e]]
        invariant tables[e] == map v | v in was && (v in todo || Translation(fds, v) >= 0) :: was[v]
        decreases |todo|
      {
        var v := Next(todo);
        if Translation(fds, v) < 0 {
          tables := tables[e := tables[e] - {v}];
        }
        todo := todo - {v};
      }
      assert tables[e] == Kept(was, fds);
    }

    /** One turn of the walk over the epoll tables. */
    method RestoreTable(e: int, listener: int, fd: int)
      requires e in tables && Translation(fds, listener) == fd >= 0
      modifies this`host, this`tables
      ensures tables == old(tables)[e := Kept(old(tables)[e], fds)]
      ensures host.Keys == old(host).Keys
      ensures forall h | h in host ::
                host[h] == if Watches(old(tables), fds, listener, e, h) then old(host)[h][fd := old(tables)[e][listener]]
                           else old(host)[h]
    {
      if listener in tables[e] {
        Rejoin(e, listener, fd);
      }
      Prune(e);
    }

    /** Every table without the entries that lead nowhere, and the new listener in the host's sets. */
    method Restore(listener: int, fd: int)
      requires fd >= 0
      modifies this
      ensures fds == old(fds)[listener := fd]
      ensures Restored(old(tables), fds, listener, fd, {}, tables, old(host), host)
    {
      fds := fds[listener := fd];
      var todo := tables.Keys;
      while todo != {}
        invariant fds == old(fds)[listener := fd] && todo <= old(tables).Keys
        invariant Restored(old(tables), fds, listener, fd, todo, tables, old(host), host)
        decreases |todo|
      {
        var e := Next(todo);
        ghost var now, nowHost := tables, host;
        RestoreTable(e, listener, fd);
        OneTable(old(tables), fds, listener, fd, todo, e, now, tables, old(host), nowHost, host);
        todo := todo - {e};
      }
    }
  }

  lemma OneTable(
    tables: map<int, Table>, fds: map<int, int>, listener: int, fd: int, todo: set<int>, e: int,
    now: map<int, Table>, next: map<int, Table>, host: map<int, Table>, nowHost: map<int, Table>, nextHost: map<int, Table>)
    requires Restored(tables, fds, listener, fd, todo, now, host, nowHost) && e in todo && todo <= tables.Keys
    requires next == now[e := Kept(now[e], fds)] && nextHost.Keys == nowHost.Keys
    requires forall h | h in nextHost ::
               nextHost[h] == if Watches(now, fds, listener, e, h) then nowHost[h][fd := now[e][listener]] else nowHost[h]
    ensures Restored(tables, fds, listener, fd, todo - {e}, next, host, nextHost)
  {
    assert now[e] == tables[e];
    assert tables.Keys - (todo - {e}) == tables.Keys - todo + {e};
    forall h | h in host
      ensures Rejoined(tables, fds, listener, fd, h, tables.Keys - (todo - {e}), host[h], nextHost[h])
    {
      OneMore(tables, fds, listener, fd, h, tables.Keys - todo, e, host[h], nowHost[h], nextHost[h]);
    }
  }

  lemma OneMore(
    tables: map<int, Table>, fds: map<int, int>, listener: int, fd: int, h: int, done: set<int>, e: int,
    was: Table, before: Table, now: Table)
    requires Rejoined(tables, fds, listener, fd, h, done, was, before) && e in tables
    requires now == if Watches(tables, fds, listener, e, h) then before[fd := tables[e][listener]] else before
    ensures Rejoined(tables, fds, listener, fd, h, done + {e}, was, now)
  {}

  /** No two tables watch the listener through the host's set `h` with different events. */
  ghost predicate Agreed(tables: map<int, Table>, fds: map<int, int>, listener: int, h: int) {
    forall d, e | Watches(tables, fds, listener, d, h) && Watches(tables, fds, listener, e, h) ::
      tables[d][listener] == tables[e][listener]
  }

  /**
   After `Restore` the listener is in every table that had it, with its event, and the host's set behind such a table has
   the new descriptor.  It has it with the event of the table, for every table, exactly if tables that share the set agree.
   */
  lemma ListenerStaysWatched(
    tables: map<int, Table>, fds: map<int, int>, listener: int, fd: int, now: map<int, Table>,
    host: map<int, Table>, nowHost: map<int, Table>, h: int)
    requires Restored(tables, fds, listener, fd, {}, now, host, nowHost)
    requires Translation(fds, listener) == fd >= 0 && h in host
    ensures forall e | e in tables && listener in tables[e] :: listener in now[e] && now[e][listener] == tables[e][listener]
    ensures forall e | Watches(tables, fds, listener, e, h) :: fd in nowHost[h]
    ensures (forall e | Watches(tables, fds, listener, e, h) :: nowHost[h][fd] == tables[e][listener])
              <==> Agreed(tables, fds, listener, h)
    ensures nowHost[h] - {fd} == host[h] - {fd}
  {}
}

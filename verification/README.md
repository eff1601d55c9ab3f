# kvmserver: a verified model

kvmserver runs a program in a small virtual machine until it waits for connections, freezes it, and forks
workers from it. An ephemeral worker serves one connection and is then reset to the frozen master. What the
program may open or connect to is decided by grants from the command line. This project models those parts in
Dafny 4.11 and proves what they are for. `dafny verify dfyconfig.toml` checks all of it.

| module | models | main results |
|---|---|---|
| `Paths`, `Normalize`, `PathTable` | the path comparator, normalisation of paths, the ordered table of grants | the order is strict and total and keeps a directory's descendants together; the stack-based normaliser computes the normal form of the C++ standard, whatever order its rewriting rules are applied in |
| `Lookup` | the predecessor-jump search | equal to a scan over all prefixes in an unordered map; the `failsafe` counter never changes the answer |
| `PathPolicy` | `ensure_path`, the path options, the open callbacks | a read or write is allowed exactly when some grant gives it on a prefix; stated for the fold of calls, for the object, and for the command line |
| `Fork`, `Protocol` | one ephemeral worker as a machine with a program counter; N of them over one accept queue | in every state of every interleaved run with failing guests and failing resets, whatever the master holds: isolation, conservation of connections, a reset between any two connections |
| `Isolation` | pairs of runs of that server | noninterference: other data from other clients gives a run again, in which workers serving a client or nobody have the same guest |
| `ForkThread` | `reset_to`, `resume_fork` and the thread loop as structured code on an object | refines the machine of `Fork`, step for step |
| `Boot`, `Master`, `Snapshot` | boot, warmup, snapshot save and load, the processes that share a snapshot file | the unknown-polling-method exception cannot happen; warmup accounts for every socket; what the epoll tables hold after a load |
| `Split`, `Numerals`, `Remapping` | `split`, `std::stoull` in base 0, the remapping option | printing and parsing are inverse; what is accepted can be printed |
| `Network` | address rules and IPv4 decisions | union of the rules; the clear, the early return and the skip for a wildcard show nowhere |
| `RequestLoop` | the request loop of the synchronous Rust example server | requests are framed alike under every chunking, and each one served gets one response; which ones are served depends on the reads, and is characterised exactly |

## How to read the model

- A path is a sequence of elements, the root directory or a name; names are compared character by character and a
  name is below the root directory, as in the comparison of paths in the C++ standard library ([fs.path.compare] of
  ISO C++20). The table is a sequence of entries, ordered by the comparator; `View` forgets the order.
- The search is proved for all tables with absolute keys, all paths and all predicates. A path that is still relative,
  because the guest's working directory is, is looked up as well, and is never found.
- `PathPolicy` takes the reading of host paths as a function (`Host`); `HostPaths` is the one of the program, and is
  absolute because the server's working directory is. The three loops over grants in the option callback, and the calls
  between them, appear as one loop over the list of calls in the same order.
- The help text of `--volume` says `<host-path>:<guest-path>` (src/config.cpp:340). The code uses the first part as the
  path inside the guest and the second as the real path (src/config.cpp:450-480). The model does what the code does.
- A guest is represented by what it can depend on: the client connections in its descriptor table and the inputs it has
  consumed since it was last equal to the master. Assumed of the machine underneath: descriptor numbers it hands out are
  fresh and not negative; a successful reset makes the guest equal to the master; a reset that throws leaves nothing of a
  connection that was not there before. The master may hold connections itself, which the warmup can leave open in it. Host
  descriptors are named by the connection they carry.
- Guests, clients, failures and stops are scripts: any sequence of actions that the state allows. Endless loops run as
  long as their script.
- `inet_pton`, `getaddrinfo`, the HTTP parser and the sizes of reads are parameters. Assumed of the HTTP parser: a
  complete request takes some of the bytes; for the results about framing, more bytes behind it change nothing; and for the
  results about which requests are answered, it is complete with just its own bytes.
- A snapshot file is all zero before it is written, and no socket can be made of the unspecified domain zero.
- Integers: 64-bit wrap-around of `stoull` and of the size of a remapping is modelled, and the narrowing of a port to 32
  bits before its range check.

## Results about what does not hold

- A port number of 2^32 or more can be accepted as another port: `PortAsWritten` says exactly which numbers are accepted
  and which are read as written, `PortThatWraps` names 4294967296, which means any port (src/config.cpp:143-150).
- An IPv6 address in brackets with a port is accepted exactly if the address together with its closing bracket is one, since
  the length to cut is taken from the whole value (`BracketRule`, src/config.cpp:176).
- The size of a remapping is the one asked for exactly below 2^44 MB (`SizeAsAsked`, src/config.cpp:52).
- After a warmup the recorded polling method is the system call in which the guest is paused exactly when the first wait
  after enough closes is of that kind, and the listener is waited for exactly when the last valid listener is in the set of
  that wait (`MethodAfterWarmup`). `OtherKindOfWait` and `OtherSet` are runs, for every number of connections, in which one
  or the other is not so (src/warmup.cpp:45-72).
- A connection that is not the warmup client's can stay open in the master, if it is queued when the warmup begins or comes
  later: no warmup with at most k such connections leaves one open exactly if none is queued and k is zero
  (`OnlyWithoutStrangers`, with a failing run for every number of warmup connections in `StrangerLeavesSocket`).
- The new listener has the saved event in the host's epoll set behind every table exactly if tables that share a host set
  agree on the event (`ListenerStaysWatched`, src/vm_state.cpp:90-108).
- A client that sends requests before it has the answers to earlier ones can be left without an answer, and the server ends
  with an error (`PipelinedRequestLost`): after a request the loop reads again before it looks at the bytes it already has
  (examples/rust/src/bin/httpserversync.rs:120-122). The first m requests of a stream are answered exactly if, for each of
  them, from its last byte on there were as many reads as requests from it on (`AllServed`); with fewer reads the stream ends
  in an error (`EndOfStream`). A client that waits for each answer gets them all (`WaitingClient`).

## Model

| member | source | states |
|---|---|---|
| `Paths.Mismatch` | src/config.hpp:58 | the length of the longest shared prefix, as `std::mismatch` finds it |
| `Paths.MismatchIs` | src/config.hpp:58 | that length is the only one with its property, whichever path comes first |
| `Paths.NameOrder` | src/config.hpp:63 | names are totally ordered |
| `Paths.NameTransitive` | src/config.hpp:63 | the order of names is transitive |
| `Paths.ElemOrder` | src/config.hpp:63 | elements are totally ordered, with the root directory above names |
| `Paths.ElemTransitive` | src/config.hpp:63 | the order of elements is transitive |
| `Paths.NameLessMeans` | src/config.hpp:63 | the first character that differs decides between names, and a name comes before its extensions |
| `Paths.PathLessMeans` | src/config.hpp:57-63 | the first element that differs decides between paths, and a path comes before its extensions |
| `Paths.PathOrder` | src/config.hpp:55-65 | the comparator is irreflexive, asymmetric and total, so that equivalence of keys is equality of segments |
| `Paths.PathTransitive` | src/config.hpp:55-65 | the comparator is transitive |
| `Paths.PrefixFirst` | src/config.hpp:59-60 | a directory comes before everything below it |
| `Paths.DescendantsContiguous` | src/config.hpp:56-65 | everything between two descendants of a directory is a descendant of it |
| `Paths.PrefixWithinShared` | src/vm.cpp:81-91 | a prefix of the path at or before a key is a prefix of what the key and the path share: shrinking the probe loses nothing |
| `Paths.AbsoluteAboveRelative` | src/vm.cpp:77 | no absolute key is at most a relative path, so that the search for one ends at once |
| `Split.SplitAt` | src/config.cpp:14-27 | the loop returns the pieces: at least one, none with a separator, and joining them restores the string |
| `Split.JoinOfPieces` | src/config.cpp:14-27 | joining the output of `split` restores every string |
| `Split.PiecesOfJoin` | src/config.cpp:14-27 | splitting joined separator-free parts restores the parts |
| `Split.PiecesUnique` | src/config.cpp:14-27 | no other list of separator-free parts joins to the string |
| `Normalize.Parse` | src/vm.cpp:70 | the file names of a path are not empty and hold no separator |
| `Normalize.ParseOfJoin` | src/vm.cpp:70 | the file names are what is written between separators; doubled and trailing separators add none; a leading one makes the path absolute |
| `Normalize.ReduceIsNormalForm` | src/vm.cpp:74 | the normaliser gives the result of the rewriting rules of [fs.path.generic] for every order of removing name and dot-dot pairs |
| `Normalize.RemovalsEnd` | src/vm.cpp:74 | from every path the removals come to an end |
| `Normalize.RemovalKeepsMeaning` | src/vm.cpp:74 | removing one such pair anywhere does not change what the normaliser gives |
| `Normalize.ReduceCompose` | src/vm.cpp:70-74 | normalisation is idempotent, and normalising a directory first changes nothing for names in it |
| `Normalize.ReduceIrreducible` | src/vm.cpp:74 | nothing is left to rewrite in a result, and no name appears that was not there |
| `Normalize.ReduceFixed` | src/vm.cpp:74 | a path with nothing to rewrite is kept |
| `Normalize.ResolveIsNormal` | src/vm.cpp:70-74 | an absolute path, or any path in an absolute directory, resolves to an absolute path without dot, dot-dot or empty names |
| `Normalize.RelativeMeans` | src/vm.cpp:70-74 | for all strings: a relative name in an absolute directory is the names of the directory followed by its own, rewritten by the rules of the standard in any order |
| `Normalize.AbsoluteMeans` | src/vm.cpp:70-74 | an absolute name is its own names so rewritten, in every directory |
| `Normalize.RelativeInRelative` | src/vm.cpp:70-74 | a relative name in a relative directory is so rewritten too, and loses a dot-dot at its end |
| `Normalize.ResolveIsRelative` | src/vm.cpp:71-74 | only a relative path in a relative directory stays relative |
| `Normalize.ResolveIdempotent` | src/vm.cpp:70-74 | resolving the printed form of a normal path gives the path in any directory |
| `Normalize.ResolveThroughDirectory` | src/vm.cpp:71-74 | normalising the working directory first does not change what a name in it means |
| `Normalize.ParseOfRender` | src/vm.cpp:84 | a normal path that is written out reads back as itself |
| `PathTable.UpperBoundSplits` | src/vm.cpp:77 | the entries before the upper bound are exactly those at most the probe |
| `PathTable.Locate` | src/config.cpp:255 | `find` gives the entry with the key, and the end exactly when there is none |
| `PathTable.LocateByUpperBound` | src/config.cpp:255 | a key is in the table exactly if it is the entry before its upper bound |
| `PathTable.Emplace` | src/config.cpp:257-263 | inserting keeps the order and adds just the new key |
| `PathTable.Assign` | src/config.cpp:266-276 | assigning through an iterator keeps the order and changes just that key |
| `Lookup.LongestGrantMeans` | src/vm.cpp:75-98 | the simple scan finds nothing exactly if no key that is a prefix satisfies the predicate, and else takes the longest such key and appends the remaining segments to its real path |
| `Lookup.JumpPastSibling` | src/vm.cpp:81-91 | shrinking the probe to the shared prefix keeps every candidate ahead and moves strictly back |
| `Lookup.JumpToParent` | src/vm.cpp:88-91 | a prefix without the right: the step to its parent keeps every candidate ahead and moves strictly back |
| `Lookup.AtRoot` | src/vm.cpp:88-91 | only the root directory can be met again, and then there is no candidate left |
| `Lookup.Jump` | src/vm.cpp:80-91 | every jump either moves strictly back with all candidates ahead, or stays at the root directory with nothing to find |
| `Lookup.Search` | src/vm.cpp:75-98 | the loop with its counter returns what the scan of all prefixes in the unordered map returns, within as many turns as the table has entries, examining entries strictly backwards but for the root directory |
| `Lookup.LookupAllowedPath` | src/vm.cpp:65-99 | from strings to strings: found exactly when the scan finds, the path is rewritten to the normal path found and left alone otherwise, and a relative path in a relative directory is never found |
| `Lookup.GrantedIsNormal` | src/vm.cpp:82-86 | whatever is found is normal and extends the real path of a matching entry with the remaining segments, with no dot-dot |
| `PathPolicy.HostPathsAbsolute` | src/config.cpp:246-253 | what `ensure_path` makes of any path in an absolute directory is absolute and normal |
| `PathPolicy.HostPathsMean` | src/config.cpp:246-253 | a relative path of a grant is the names of the server's directory followed by its own, so rewritten |
| `PathPolicy.Configuration.constructor` | src/config.hpp:83 | a new configuration grants nothing |
| `PathPolicy.Configuration.EnsurePath` | src/config.cpp:240-277 | the table changes at the one key: rights are added, the real path is replaced; the table stays ordered and normal |
| `PathPolicy.FoldMeans` | src/config.cpp:240-277 | after any calls each key holds the union of the rights given to it and the last real path, and no other key exists |
| `PathPolicy.Decision` | src/vm.cpp:65-99 | a lookup for reading or writing succeeds exactly if some call granted that right on a prefix of the path |
| `PathPolicy.GrantsOnlyAdd` | src/config.cpp:421-485 | more grants never revoke access, and the same grants in any order decide alike |
| `PathPolicy.Target` | src/vm.cpp:82-86 | a granted access goes to the last real path of the longest key with the right, followed by the remaining segments |
| `PathPolicy.ParseRights` | src/config.cpp:460-474 | exactly the empty string, `r`, `w` and `rw` are accepted, and mean what they say |
| `PathPolicy.VolumeCalls` | src/config.cpp:444-481 | one grant for each volume, in order |
| `PathPolicy.VolumesFail` | src/config.cpp:444-481 | a list of volumes is rejected exactly if one is bad, with the error of the first bad one |
| `PathPolicy.VolumeMeans` | src/config.cpp:444-480 | a volume of two or three parts has the first as key, the second as real path and the rights of the third, or is readable; every other number of parts and all other rights have their error |
| `PathPolicy.VolumeCallAt` | src/config.cpp:458-479 | where in the order of calls the one for a volume is, and what it grants |
| `PathPolicy.ListCalls` | src/config.cpp:421-426 | the same for the paths of the two lists |
| `PathPolicy.FixedTargets` | src/config.cpp:428-442 | the same for the devices, the memory map file and the guest library, with the real paths they go to |
| `PathPolicy.ProgramTargets` | src/config.cpp:484-485 | the same for the program and its symbolic link |
| `PathPolicy.Configuration.EnsureAll` | src/config.cpp:421-485 | after all calls the table is the fold of the grants |
| `PathPolicy.Configuration.Build` | src/config.cpp:421-485 | the table holds all the calls in their order, or the options are rejected, exactly if a volume is malformed, with the error of the first such |
| `PathPolicy.CommandLinePolicy` | src/config.cpp:421-485 | a path may be read exactly if it is below an `--allow-read` path, a readable volume, one of the fixed paths or the program, and written exactly if below an `--allow-write` path, a writable volume, or two fixed devices |
| `PathPolicy.CallTarget` | src/vm.cpp:82-86 | an access goes to the real path of the last call on the longest key with the right, followed by the rest of the path |
| `PathPolicy.VolumeTarget` | src/config.cpp:444-480 | from the command line to the real path: an access below the first path of a volume goes below its second |
| `PathPolicy.Configuration.Open` | src/vm.cpp:236-245 | the open callbacks allow an access exactly if it was granted on a prefix, and their path resolves to the granted one |
| `Fork.ForkedIsSound` | src/vm.cpp:303-347 | a fork of any master starts with an open gate, no connection tracked, and depends on the master alone |
| `Fork.StepKeepsSound` | src/vm.cpp:348-415 | every step, also a throwing guest, reset or callback, keeps: the gate is closed exactly when a connection is tracked, and the guest depends on the master and that connection only, and on the master alone after the machine reset and while the gate is open |
| `Fork.AcceptNeverRefusesAgain` | src/vm.cpp:363-378 | behind the gate the "already has a connection" branch cannot be taken |
| `Fork.AcceptReachesGuest` | src/vm.cpp:363-378 | an accepted connection is in the guest's descriptor table under its number, nothing else changes there, and what it sends can be read as its own |
| `Fork.InputsAdd` | src/vm.cpp:348-378 | a read or any other input adds just that to what the guest has consumed |
| `Fork.CloseTakesOne` | src/vm.cpp:379-391 | closing takes one descriptor away and asks for a reset exactly if it is the tracked one |
| `Fork.TouchedByInput` | src/vm.cpp:348-395 | an input makes a guest depend on its sender and on nobody else |
| `Protocol.ServingChanges` | src/vm.cpp:363-415 | only an accept starts service and only the end of a reset ends it |
| `Protocol.StepKeepsPlaces` | src/main.cpp:144-231 | no step of a worker changes in how many places a connection is |
| `Protocol.NextKeepsInv` | src/main.cpp:144-231 | arrivals and steps of any worker keep the invariant of the whole server |
| `Protocol.Safety` | src/main.cpp:144-231 | in every reachable state of N workers forked from any master: all workers sound, every arrived connection in exactly one of queue, one worker, finished; none dropped; at most N in service |
| `Protocol.CleanMaster` | src/main.cpp:144-231 | from a master without connections, a worker depends on the one it tracks only, and on none with its gate open |
| `Isolation.NoInterference` | src/main.cpp:144-231 | two runs: if all clients but one, and but those whose connections the master holds, send other data, that is a run again, with the same queue and flags, and every worker that serves this one or nobody has the same guest |
| `Isolation.RunAlike` | src/vm.cpp:348-415 | a run with other data from connections outside a set is a run, through states that differ in that data only |
| `Isolation.StepAlike` | src/vm.cpp:348-415 | what a worker can do next does not depend on the data it was sent |
| `Isolation.AlikeTouched` | src/vm.cpp:348-415 | guests that differ in such data depend on the same connections, and are equal if they depend on none outside the set |
| `Protocol.GateHeld` | src/vm.cpp:350-361 | a closed gate stays closed and nothing is accepted until the flags are cleared at the end of a reset |
| `Protocol.NoClearBeforeReset` | src/vm.cpp:398-415 | flags are not cleared before a machine reset succeeds |
| `Protocol.ResetThenClear` | src/vm.cpp:398-415 | wherever the flags are cleared, a machine reset succeeded before |
| `Protocol.ResetBetweenAccepts` | src/vm.cpp:350-415 | between two connections accepted by one worker a machine reset succeeded and then the flags were cleared, whatever happened in between |
| `Protocol.ResetBetweenRuns` | src/main.cpp:200-229 | between the end of one guest run, by return or exception, and the next resume of that worker a reset was attempted |
| `Protocol.AcceptedOnce` | src/vm.cpp:363-378 | after a connection was accepted no worker accepts it again |
| `Protocol.NeverQueuedAgain` | src/main.cpp:144-231 | a connection that has left the queue does not come back to it |
| `Protocol.AcceptedInOrder` | src/main.cpp:144-231 | over every run, connections are accepted in the order in which they arrived, and none is passed over |
| `Protocol.EveryClientCanBeServed` | src/main.cpp:144-231 | from every reachable state and for every worker a run goes on in which it takes the first connection of the queue and reads from it; its guest is then the master with just that connection and input |
| `ForkThread.ForkedVm.constructor` | src/vm.cpp:303-347 | the object starts as the machine does |
| `ForkThread.ForkedVm.AcceptSocket` | src/vm.cpp:363-378 | with none tracked the connection is tracked, the gate closes and the descriptor table gains just that entry; else it is refused and nothing changes; as in the machine |
| `ForkThread.ForkedVm.FreeFd` | src/vm.cpp:379-391 | closing the tracked descriptor asks for a reset and stops; a reset already asked for stays so; nothing else does |
| `ForkThread.ForkedVm.Perform` | src/vm.cpp:348-392 | each system call that reaches a callback is one step of the machine |
| `ForkThread.ForkedVm.Run` | src/vm.cpp:720 | a guest run is a path of the machine that ends in a return or an exception |
| `ForkThread.ForkedVm.ResetTo` | src/vm.cpp:398-415 | a path of the machine; on an exception the tracked descriptors and the gate are as before, on success they are clear and the guest is the master |
| `ForkThread.ForkedVm.ResetNow` | src/vm.cpp:722-728 | the reset inside the loop: afterwards none is needed, unless it threw |
| `ForkThread.ForkedVm.ResumeOnce` | src/vm.cpp:717-731 | one turn: the loop is left by exception or exactly when no reset was needed, and goes on only with a clean guest |
| `ForkThread.ForkedVm.ResumeFork` | src/vm.cpp:710-737 | the loop is a path of the machine, with one resume for each guest run |
| `ForkThread.ForkedVm.Thread` | src/main.cpp:200-229 | the endless thread is a path of the machine with one resume for each guest run, for all failures, and stays sound |
| `ForkThread.PathKeepsSound` | src/vm.cpp:348-415 | what every step keeps, every path keeps |
| `Boot.BootSettles` | src/vm.cpp:480-541 | in every run of a boot: stopped exactly with a method on record, which is the call the guest is paused in, on a set with the listener; the warmup client has not begun |
| `Boot.BootStep` | src/vm.cpp:491-541 | an act that waits for the listener stops the boot, another does not |
| `Boot.BootStopsAtFirstWait` | src/vm.cpp:480-541 | over all acts of a boot: it stops in the first that waits for the last valid listener before it, by epoll, poll or a blocking accept, with that method on record, and goes on while there is none |
| `Boot.BootStops` | src/vm.cpp:480-541 | it has stopped exactly if there was such an act |
| `Boot.EveryKindBoots` | src/vm.cpp:480-541 | listening and then waiting, in any of the ways, is a boot that stops |
| `Boot.StepTallied` | src/warmup.cpp:27-88 | one callback of the warmup keeps the counters right |
| `Boot.Accounting` | src/warmup.cpp:27-88 | in every run, connections taken are those freed plus those still open, which are the tracked ones; the method on record does not change, and a stop has enough frees |
| `Boot.TakenWereMade` | src/warmup.cpp:188-204 | connections taken or queued were queued before, made by the client, at most N, or made by strangers |
| `Boot.OpenAtStop` | src/warmup.cpp:27-105 | a stop leaves no more sockets, open or queued, than strangers were queued before or came |
| `Boot.SingleClient` | src/warmup.cpp:27-105 | with the warmup client alone a stop has exactly N frees, no socket open, none queued and none to come |
| `Boot.StrangerLeavesSocket` | src/warmup.cpp:45-58 | for every N, with a stranger queued before the warmup or one coming later, a run stops with its socket open |
| `Boot.OnlyWithoutStrangers` | src/warmup.cpp:27-105 | no warmup with at most k strangers leaves a socket open exactly if none is queued and k is zero |
| `Boot.FreedIsCounted` | src/warmup.cpp:37-44 | the counter is the number of closes of descriptors taken and not closed before |
| `Boot.StopsAtFirstWait` | src/warmup.cpp:45-88 | a warmup is over exactly if there was a wait after N closes, and the guest is paused in the first such wait |
| `Boot.MethodAfterWarmup` | src/warmup.cpp:45-88 | the recorded method is that of the paused call exactly if this first wait is of its kind, and the listener is waited for exactly if the last valid one is in its set |
| `Boot.TracksLastListener` | src/vm.cpp:481-490 | the listener tracked is the last valid one |
| `Boot.OneKindOfWait` | src/warmup.cpp:45-93 | so it is for a guest that waits in one way only |
| `Boot.OtherKindOfWait` | src/warmup.cpp:59-72 | for every N, a guest found in `epoll_wait` can be left in `poll`, on a set without the listener |
| `Boot.OtherSet` | src/warmup.cpp:45-58 | for every N, a guest that uses only `epoll_wait` can be left in it without the listener |
| `Master.RestartPollSyscall` | src/vm.cpp:690-708 | the system call made is of the recorded method, and there is none exactly if no method is recorded |
| `Master.VirtualMachine.constructor` | src/vm.hpp:75-80 | a new VM has no method, no listener and does not wait |
| `Master.VirtualMachine.ListeningSocket` | src/vm.cpp:481-490 | a valid listener is tracked, another changes nothing |
| `Master.VirtualMachine.BootEpollWait` | src/vm.cpp:491-508 | the call is made exactly if there is no listener or it is not in the set, and then nothing changes; else epoll is on record and the VM waits |
| `Master.VirtualMachine.BootPoll` | src/vm.cpp:509-523 | the call is made exactly if there is no listener or it is not among the descriptors, and then nothing changes; else poll is on record and the VM waits |
| `Master.VirtualMachine.BootAccept` | src/vm.cpp:524-541 | the call is made exactly unless it is a blocking one on the listener with no method known, and then nothing changes; else blocking is on record and the VM waits |
| `Master.VirtualMachine.WarmupWait` | src/warmup.cpp:45-88 | the call is made exactly if there are not enough frees, or it is an accept and not the method, and then nothing changes; else the VM waits |
| `Master.VirtualMachine.WarmupAcceptSocket` | src/warmup.cpp:30-35 | the descriptor is tracked and returned |
| `Master.VirtualMachine.WarmupFreeFd` | src/warmup.cpp:37-44 | closing a tracked descriptor counts once |
| `Master.VirtualMachine.Run` | src/warmup.cpp:96 | running a script reaches the state of the run of `Boot` |
| `Master.VirtualMachine.Warmup` | src/warmup.cpp:18-105 | the method is kept; it succeeds exactly for zero connections, or with a method known and a wait after enough closes, in the state that the run reaches |
| `Master.VirtualMachine.SaveState` | src/vm_state.cpp:21-58 | the file holds method, listener and domain, also when a socket call fails afterwards; cut short before the method is written, it is blank |
| `Master.VirtualMachine.LoadState` | src/vm_state.cpp:60-124 | fails exactly if no socket can be made, as for a blank file; else method and listener are those of the file, the new socket takes the listener's place, and the epoll tables are restored |
| `Master.VirtualMachine.Initialize` | src/vm.cpp:417-688 | exactly when it succeeds: the snapshot can be loaded; or the guest comes to wait, warms up and is saved; or it is a single VM that does not wait; never an unknown method; what state and what snapshot file it leaves |
| `Master.WarmupClient` | src/warmup.cpp:188-204 | the client's loop makes at most N connections, fewer only after a failure or a stop, as a run allows |
| `Master.Serve` | src/main.cpp:47-231 | in one process every restart of the polling call, of the single VM or of any fork, happens as often as it should and finds the method that was recorded |
| `Master.Deploy` | src/main.cpp:47-231 | over any sequence of processes sharing a snapshot file every restart happens and none fails for an unknown method |
| `Snapshot.Descriptors.Rejoin` | src/vm_state.cpp:93-108 | the host's set behind a table ends with the new descriptor and the saved event, registered before or not |
| `Snapshot.Descriptors.Prune` | src/vm_state.cpp:109-122 | the table keeps exactly the entries that translate, whatever the order of the walk |
| `Snapshot.Descriptors.Restore` | src/vm_state.cpp:85-123 | every table is its former contents filtered to what translates, every host set behind a table with the listener has gained it, and no other changes |
| `Snapshot.KeptMeans` | src/vm_state.cpp:110-122 | an entry stays, as it was, exactly if its descriptor is open and leads somewhere |
| `Snapshot.ListenerStaysWatched` | src/vm_state.cpp:85-123 | the listener stays in every table that had it, with its event; the host has that event for every table exactly if tables that share a host set agree; other registrations stay |
| `Numerals.ValueOfDigits` | src/config.cpp:40 | the digits of a number have its value, in each base |
| `Numerals.StoullPlain` | src/config.cpp:40 | a prefix and digits are read as their value, or out of range from 2^64 on |
| `Numerals.StoullOfNumeral` | src/config.cpp:40 | a number printed in decimal or hexadecimal reads back as itself exactly if it fits 64 bits |
| `Numerals.StoullMeans` | src/config.cpp:40 | a number in decimal, octal or hexadecimal, with space and a sign before it and anything else behind it, is read as its value, taken from 2^64 for a minus, or out of range |
| `Numerals.DigitsAre` | src/config.cpp:40 | the sixteen digits, in both cases |
| `Remapping.ParseRights` | src/config.cpp:80-95 | exactly `r`, `w`, `x` in this order, each optional, are accepted, and mean what they say |
| `Remapping.RightsAre` | src/config.cpp:80-92 | the eight forms of rights, each for its own |
| `Remapping.AddRemapping` | src/config.cpp:29-100 | the step-by-step parser gives what the specification gives, appended, or its error |
| `Remapping.ParseOfPrint` | src/config.cpp:29-100 | parsing a printed remapping restores it, for all values that fit and each notation of each number |
| `Remapping.ShortForms` | src/config.cpp:58-79 | without an address it is zero, without rights the memory is writable and not executable |
| `Remapping.Rejections` | src/config.cpp:35-99 | for every list of parts, whether it is accepted and which error it has |
| `Remapping.ParsedIsExpressible` | src/config.cpp:29-100 | whatever is accepted fits and can be printed again |
| `Remapping.WholeMegabytes` | src/config.cpp:52 | also a size that wraps around is whole megabytes |
| `Remapping.SizeAsAsked` | src/config.cpp:52 | the size is the one asked for exactly below 2^44 MB |
| `Network.ValidateNetworkAccess` | src/vm.cpp:107-127 | the scan allows an endpoint exactly if some entry admits its address and port |
| `Network.LastNonDigit` | src/config.cpp:139 | the last character that is no digit |
| `Network.EntriesCover` | src/config.cpp:154-237 | the entries of a rule admit what the rule covers |
| `Network.ParseAddresses` | src/config.cpp:124-238 | the loop over its vector gives what the specification gives |
| `Network.ParsedFails` | src/config.cpp:124-238 | a list is rejected exactly if it has a bad value with no wildcard before it, and an accepted one reports a wildcard exactly if it has one |
| `Network.ParsedMeans` | src/config.cpp:124-238 | an accepted list allows what was allowed before or matches one of its values: clear and early return show nowhere |
| `Network.BuildPolicy` | src/config.cpp:516-537 | what the option callback leaves allows exactly the union of the rules, for connect and for listen; it fails exactly for a bad value that no wildcard spares |
| `Network.PolicyFails` | src/config.cpp:516-537 | a command line is rejected exactly for a bad value in allow-net, or in the other two without a wildcard there |
| `Network.UnionSemantics` | src/config.cpp:516-537 | connect is allowed exactly if a rule of allow-net or allow-connect matches, listen likewise |
| `Network.PortAsWritten` | src/config.cpp:139-152 | a number is read as written exactly if it is a port, and accepted exactly if it wraps onto one |
| `Network.PortThatWraps` | src/config.cpp:143-150 | the accepted numbers that are no ports begin at 2^32, which means any port |
| `Network.LiteralRule` | src/config.cpp:139-196 | an IPv4 literal with a number is read as that endpoint exactly if the number is a port, and rejected exactly if it does not wrap onto one |
| `Network.WordRules` | src/config.cpp:131-138 | an empty value and `false` allow nothing, `true` allows everything |
| `Network.PortRule` | src/config.cpp:154-169 | a port alone is that port of every address, and port zero everything |
| `Network.AddressRule` | src/config.cpp:187-196 | an IPv4 literal is that address, with its port or any |
| `Network.NameRule` | src/config.cpp:198-234 | another name is exactly the IPv4 addresses it resolves to, with its port or any, or its error |
| `Network.BracketRule` | src/config.cpp:171-185 | an address in brackets allows nothing of IPv4, and exactly when it is accepted |
| `Network.BadPortRule` | src/config.cpp:140-152 | a colon at the end and a number that does not wrap onto a port are errors |
| `Network.OneRule` | src/vm.cpp:107-127 | from the text of a rule to the decision: an endpoint is allowed exactly if address and port are those of the rule or the rule has zero for them |
| `Network.NothingAllowed` | src/config.cpp:516-537 | options that are empty or say `false` allow no endpoint at all |
| `Network.EverythingAllowed` | src/config.cpp:516-537 | `true` in allow-net allows every endpoint, if nothing before it is an error |
| `RequestLoop.ScanHeaders` | examples/rust/src/bin/httpserversync.rs:71-92 | the last connection header decides about closing, any length or encoding header about a body |
| `RequestLoop.VersionDecides` | examples/rust/src/bin/httpserversync.rs:72 | without a connection header the connection is kept exactly unless the version is 1.0 |
| `RequestLoop.LastHeaderDecides` | examples/rust/src/bin/httpserversync.rs:85-87 | else exactly if the last one says keep-alive |
| `RequestLoop.ResponsesMean` | examples/rust/src/bin/httpserversync.rs:70-139 | which event gets which response, which refusal answers which request, and where the loop goes on |
| `RequestLoop.Answer` | examples/rust/src/bin/httpserversync.rs:70-139 | what is written and how the loop is left in each branch |
| `RequestLoop.CopyToFront` | examples/rust/src/bin/httpserversync.rs:120 | what was received after the request is at the front |
| `RequestLoop.ReadInto` | examples/rust/src/bin/httpserversync.rs:58 | given room, nothing is read only at the end of the stream |
| `RequestLoop.Process` | examples/rust/src/bin/httpserversync.rs:53-143 | for every chunking and all failures of the socket, responses and result are those of a run described by stream positions alone, or of one cut off by a failure |
| `RequestLoop.Loop` | examples/rust/src/bin/httpserversync.rs:53-143 | the same with the run exhibited, each of whose reads returned what its chunk, the room and the stream allowed |
| `RequestLoop.Handle` | examples/rust/src/bin/httpserversync.rs:66-140 | the body after a read adds one event to the run and keeps the unconsumed bytes at the front, or leaves as the run does |
| `RequestLoop.Turn` | examples/rust/src/bin/httpserversync.rs:57-140 | one turn keeps the invariant of the loop: the buffer is the received and unconsumed part of the stream, and every read has room |
| `RequestLoop.EveryRunHappens` | examples/rust/src/bin/httpserversync.rs:53-143 | every run is one that the loop goes through for some chunking |
| `RequestLoop.ServedAreFirst` | examples/rust/src/bin/httpserversync.rs:53-143 | the requests served are the first requests of the stream, and what was received is those followed by the buffer |
| `RequestLoop.OneResponseEach` | examples/rust/src/bin/httpserversync.rs:70-139 | the responses are one greeting for each request served, in order, and at most one refusal, which is the last |
| `RequestLoop.ChunkingDoesNotReframe` | examples/rust/src/bin/httpserversync.rs:53-143 | two chunkings of one stream serve the same requests as far as both get |
| `RequestLoop.AllServed` | examples/rust/src/bin/httpserversync.rs:53-143 | a run that goes on to the end serves the first m requests of the stream exactly if for every k up to m at least m-k+1 reads end at or after the end of request k |
| `RequestLoop.CompleteWhenRead` | examples/rust/src/bin/httpserversync.rs:69-70 | the next request is complete in the buffer exactly when it has been read to its end |
| `RequestLoop.ServedTakesReads` | examples/rust/src/bin/httpserversync.rs:56-123 | each request served took a read of its own that got to its end |
| `RequestLoop.NoReadWasted` | examples/rust/src/bin/httpserversync.rs:56-123 | while a request is unserved there is one from whose end on every read has served one |
| `RequestLoop.EndOfStream` | examples/rust/src/bin/httpserversync.rs:58-65 | a stream of m whole requests ends well exactly if there were that many reads, and with an error exactly if a request was not served |
| `RequestLoop.WaitingClient` | examples/rust/src/bin/httpserversync.rs:53-143 | every request of a client that waits for each answer is served |
| `RequestLoop.PipelinedRequestLost` | examples/rust/src/bin/httpserversync.rs:120-122 | two requests in one read, then the end: the second is complete and never answered |

## Left out

- IPv6 rules and decisions (src/config.cpp:162-185, src/vm.cpp:131-153): line 162 copies into the IPv4 entry instead of
  naming the new one, so that the code does not compute what it seems to mean; only whether such a value is accepted is modelled (`BracketRule`).
- The symlink callback (src/vm.cpp:291-301): a lookup with a predicate that always holds, which `Lookup.Search` covers.
- Unix socket addresses in the connect and bind callbacks, which ask the path policy again.
- TinyKVM: page tables, copy-on-write, the descriptor manager and system call emulation, but for the assumptions above.
- The storage VM, its remote calls and its serializer; forks of it are not resumed by the code modelled here.
- Workers that are not ephemeral: they are never reset unless they fail, and no connection is tracked.
- Registers and the emulated return to user mode before a fork (src/vm.cpp:622-634).
- Socket option calls in save and load, of which only success and failure are modelled; their values are passed through.
- Timeouts, logging, the debugger, sampling and benchmark modes, and the printing of reset counters.
- The command line library, environment filtering, program lookup, DNS and temporary files; the two temporary files stand as
  parameters in `Options`.
- `Lookup.LookupAllowedPath`: requires a table in the state that `ensure_path` keeps it in (ordered, normal absolute paths),
  which `PathPolicy.Configuration` proves of every configuration.
- `Isolation.NoInterference`: other clients change what they send, not when they connect or how their guests act on it; the two
  runs take the same steps otherwise.
- `Remapping.AddRemapping`: on an error the half-filled entry that the source leaves in the vector is not in the result, because
  the exception ends the configuration.
- `RequestLoop.Answer`: the texts of the responses are named, not spelled out.
- `Snapshot.Descriptors.Restore`: takes the epoll tables of the copied descriptor manager to be shared with the original, as the
  source's comments and pointers suggest; the manager itself is not part of this model.
- Other example programs, benchmarks, tests, the guest library and build files.

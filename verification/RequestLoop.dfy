/**
 The fixed-buffer request loop of the synchronous example server
 (`process`, examples/rust/src/bin/httpserversync.rs:53-143).

 The client's bytes arrive in pieces of any size; the header parser is any function that reports how long a
 complete request is.  `Process` is the loop over its buffer; the events it goes through, one for each read, are
 described by positions in the byte stream alone.
 */
module RequestLoop {
  import opened Wrappers

  const CAPACITY := 4096

  newtype Byte = b: int | 0 <= b < 256

  datatype Header = Connection(keepAlive: bool) | ContentLength(zero: bool) | TransferEncoding(chunked: bool) | OtherHeader

  datatype Request = Request(get: bool, version: nat, headers: seq<Header>)

  datatype Status = Complete(length: nat, request: Request) | Partial | Malformed

  type Parser = seq<Byte> -> Status

  /** A complete request takes some of the bytes. */
  ghost predicate Bounded(parse: Parser) {
    forall s :: parse(s).Complete? ==> 0 < parse(s).length <= |s|
  }

  predicate Extends(t: seq<Byte>, s: seq<Byte>) {
    s <= t
  }

  /** More bytes behind a complete request change nothing. */
  ghost predicate Stable(parse: Parser) {
    forall s, t {:trigger Extends(t, s)} :: Extends(t, s) && parse(s).Complete? ==> parse(t) == parse(s)
  }

  /** A complete request is complete with just its own bytes. */
  ghost predicate Exact(parse: Parser) {
    forall s, t {:trigger Extends(t, s)} :: Extends(t, s) && parse(t).Complete? && parse(t).length == |s| ==> parse(s) == parse(t)
  }

  datatype Response = Hello(keepAlive: bool) | MethodNotAllowed | BadRequest

  datatype Outcome = Done | UnexpectedEof | InvalidData | SocketError

  // ---------------------------------------------------------------- headers

  function Closes(r: Request, n: nat): bool
    requires n <= |r.headers|
  {
    if n == 0 then r.version == 0
    else if r.headers[n - 1].Connection? then !r.headers[n - 1].keepAlive
    else Closes(r, n - 1)
  }

  predicate Announces(h: Header) {
    (h.ContentLength? && !h.zero) || (h.TransferEncoding? && h.chunked)
  }

  predicate HasBody(r: Request) {
    exists i | 0 <= i < |r.headers| :: Announces(r.headers[i])
  }

  method ScanHeaders(r: Request) returns (close: bool, hasBody: bool)
    ensures close == Closes(r, |r.headers|)
    ensures hasBody == HasBody(r)
  {
    close := r.version == 0;
    hasBody := false;
    for i := 0 to |r.headers|
      invariant close == Closes(r, i)
      invariant hasBody <==> exists j | 0 <= j < i :: Announces(r.headers[j])
    {
      match r.headers[i]
      case Connection(keepAlive) => close := !keepAlive;
      case ContentLength(zero) => hasBody := hasBody || !zero;
      case TransferEncoding(chunked) => hasBody := hasBody || chunked;
      case OtherHeader =>
    }
  }

  predicate Welcome(r: Request) {
    r.get && !HasBody(r)
  }

  // ---------------------------------------------------------------- events

  /** After a read: the unconsumed bytes are `input[start..pos]`, and this is what the parser makes of them. */
  datatype Event = Event(start: nat, pos: nat, status: Status)

  /** The request at the front is greeted. */
  predicate Greets(e: Event) {
    e.status.Complete? && Welcome(e.status.request)
  }

  /** The loop reads on after this event. */
  predicate GoesOn(e: Event) {
    match e.status
    case Complete(_, r) => Welcome(r) && !Closes(r, |r.headers|)
    case Partial => e.pos - e.start != CAPACITY
    case Malformed => false
  }

  /** Where the unconsumed bytes begin afterwards. */
  function Consumed(e: Event): nat {
    if Greets(e) then e.start + e.status.length else e.start
  }

  function ResponsesTo(e: Event): seq<Response> {
    match e.status
    case Complete(_, r) =>
      if !r.get then [MethodNotAllowed] else if HasBody(r) then [BadRequest] else [Hello(!Closes(r, |r.headers|))]
    case Partial => if GoesOn(e) then [] else [BadRequest]
    case Malformed => []
  }

  function Start(events: seq<Event>): nat {
    if events == [] then 0 else Consumed(events[|events| - 1])
  }

  function Received(events: seq<Event>): nat {
    if events == [] then 0 else events[|events| - 1].pos
  }

  /** `e` can come after `before`: something was read, into room that was there. */
  ghost predicate Follows(input: seq<Byte>, parse: Parser, before: seq<Event>, e: Event) {
    && (before != [] ==> GoesOn(before[|before| - 1]))
    && e.start == Start(before) <= Received(before) < e.pos <= |input|
    && e.pos - e.start <= CAPACITY
    && e.status == parse(input[e.start..e.pos])
  }

  ghost predicate IsRun(input: seq<Byte>, parse: Parser, events: seq<Event>) {
    events != [] ==>
      var before := events[..|events| - 1];
      IsRun(input, parse, before) && Follows(input, parse, before, events[|events| - 1])
  }

  function Responses(events: seq<Event>): seq<Response> {
    if events == [] then [] else Responses(events[..|events| - 1]) + ResponsesTo(events[|events| - 1])
  }

  function Served(events: seq<Event>): seq<Request> {
    if events == [] then []
    else
      var e := events[|events| - 1];
      Served(events[..|events| - 1]) + if Greets(e) then [e.status.request] else []
  }

  /** How a run ends: at an event that does not go on, or at the end of the stream. */
  ghost predicate Ends(input: seq<Byte>, events: seq<Event>, outcome: Outcome) {
    if events == [] || GoesOn(events[|events| - 1]) then
      Received(events) == |input| && outcome == if Start(events) == |input| then Done else UnexpectedEof
    else
      outcome == if Greets(events[|events| - 1]) then Done else InvalidData
  }

  /** These responses and this result are those of a whole run of the stream, or of one that an error of the socket cut off. */
  ghost predicate Answers(
    input: seq<Byte>, parse: Parser, events: seq<Event>, responses: seq<Response>, outcome: Outcome)
  {
    IsRun(input, parse, events) &&
    if outcome == SocketError then CutOff(events, responses)
    else Ends(input, events, outcome) && responses == Responses(events)
  }

  /** A read failed after the last event, or the response to the last event could not be written. */
  predicate CutOff(events: seq<Event>, responses: seq<Response>) {
    || (KeepsOn(events) && responses == Responses(events))
    || (events != [] && ResponsesTo(events[|events| - 1]) != [] && responses == Responses(events[..|events| - 1]))
  }

  /** The loop is not left at the last event of the run. */
  predicate KeepsOn(events: seq<Event>) {
    events != [] ==> GoesOn(events[|events| - 1])
  }

  /** Between two reads: `input[start..pos]` is held, and a read can come. */
  ghost predicate Reading(input: seq<Byte>, parse: Parser, events: seq<Event>, start: nat, pos: nat) {
    && IsRun(input, parse, events) && (events != [] ==> GoesOn(events[|events| - 1]))
    && start == Start(events) <= pos == Received(events) <= |input|
  }

  /** One more read. */
  lemma OneMore(input: seq<Byte>, parse: Parser, events: seq<Event>, pos: nat, e: Event)
    requires Reading(input, parse, events, e.start, pos) && Bounded(parse)
    requires pos < e.pos <= |input| && e.pos - e.start <= CAPACITY && e.status == parse(input[e.start..e.pos])
    ensures e.status.Complete? ==> e.status.length <= e.pos - e.start
    ensures var more := events + [e];
            && IsRun(input, parse, more) && Responses(more) == Responses(events) + ResponsesTo(e)
            && (if GoesOn(e) then Reading(input, parse, more, Consumed(e), e.pos) && e.pos - Consumed(e) < CAPACITY
                else Ends(input, more, if Greets(e) then Done else InvalidData))
  {
    assert (events + [e])[..|events|] == events;
  }

  /** Without a connection header the version decides whether the connection is kept; ... */
  lemma {:induction false} VersionDecides(r: Request, n: nat)
    requires n <= |r.headers| && forall i | 0 <= i < n :: !r.headers[i].Connection?
    ensures Closes(r, n) <==> r.version == 0
  {
    if n > 0 {
      VersionDecides(r, n - 1);
    }
  }

  /** ... else the last one does. */
  lemma {:induction false} LastHeaderDecides(r: Request, n: nat, i: nat)
    requires i < n <= |r.headers| && r.headers[i].Connection? && forall j | i < j < n :: !r.headers[j].Connection?
    ensures Closes(r, n) <==> !r.headers[i].keepAlive
  {
    if i < n - 1 {
      LastHeaderDecides(r, n - 1, i);
    }
  }

  /** Which event gets which response, and which of them the loop survives. */
  lemma ResponsesMean(e: Event)
    ensures e.status.Malformed? ==> ResponsesTo(e) == [] && !GoesOn(e)
    ensures e.status.Partial? && e.pos - e.start < CAPACITY ==> ResponsesTo(e) == [] && GoesOn(e)
    ensures e.status.Partial? && e.pos - e.start == CAPACITY ==> ResponsesTo(e) == [BadRequest] && !GoesOn(e)
    ensures e.status.Complete? ==>
              var r := e.status.request;
              var body := exists i | 0 <= i < |r.headers| :: r.headers[i] == ContentLength(false) || r.headers[i] == TransferEncoding(true);
              && (!r.get ==> ResponsesTo(e) == [MethodNotAllowed] && !GoesOn(e))
              && (r.get && body ==> ResponsesTo(e) == [BadRequest] && !GoesOn(e))
              && (r.get && !body ==>
                    && ResponsesTo(e) == [Hello(!Closes(r, |r.headers|))] && (GoesOn(e) <==> !Closes(r, |r.headers|))
                    && Greets(e) && Consumed(e) == e.start + e.status.length)
  {
    if e.status.Complete? {
      var r := e.status.request;
      assert forall i | 0 <= i < |r.headers| ::
          Announces(r.headers[i]) <==> r.headers[i] == ContentLength(false) || r.headers[i] == TransferEncoding(true);
    }
  }

  // ---------------------------------------------------------------- the loop on the buffer

  /** The last `n` of the first `pos` bytes. */
  function Held(input: seq<Byte>, pos: nat, n: nat): seq<Byte>
    requires n <= pos <= |input|
  {
    input[pos - n..pos]
  }

  /** `copy_within(from..to, 0)`: what is kept of the last `to` bytes received. */
  method CopyToFront(buf: array<Byte>, from: nat, to: nat, ghost input: seq<Byte>, ghost pos: nat)
    requires from <= to <= buf.Length && to <= pos <= |input|
    requires buf[..to] == Held(input, pos, to)
    modifies buf
    ensures buf[..to - from] == Held(input, pos, to - from)
  {
    ghost var was := buf[..to];
    for i := 0 to to - from
      invariant forall j | 0 <= j < i :: buf[j] == was[from + j]
      invariant forall j | i <= j < to :: buf[j] == was[j]
    {
      buf[i] := buf[from + i];
    }
    assert buf[..to - from] == was[from..];
  }

  /** How many bytes a read returns that could return `want`, given its room and what is left: none only at the end. */
  function Chunk(want: nat, room: nat, left: nat): (m: nat)
    ensures m <= room && m <= left
    ensures room > 0 && left > 0 ==> m > 0
    ensures 0 < want <= room && want <= left ==> m == want
  {
    var ask := if want > 0 then want else 1;
    var most := if room < left then room else left;
    if ask < most then ask else most
  }

  /** `read` into the buffer from `offset` on. */
  method ReadInto(buf: array<Byte>, offset: nat, input: seq<Byte>, pos: nat, want: nat) returns (m: nat)
    requires offset < buf.Length && offset <= pos <= |input| // the slice is not empty
    requires buf[..offset] == Held(input, pos, offset)
    modifies buf
    ensures m == Chunk(want, buf.Length - offset, |input| - pos) && (m == 0 <==> pos == |input|)
    ensures buf[..offset + m] == Held(input, pos + m, offset + m)
  {
    m := Chunk(want, buf.Length - offset, |input| - pos);
    for i := 0 to m
      invariant buf[..offset] == old(buf[..offset])
      invariant buf[offset..offset + i] == input[pos..pos + i]
    {
      buf[offset + i] := input[pos + i];
      assert buf[offset..offset + i] == input[pos..pos + i];
    }
    ghost var all := buf[..offset + m];
    assert all[..offset] == buf[..offset] && all[offset..] == buf[offset..offset + m];
    Extended(all, input, pos - offset, pos, m);
  }

  /** What is written after a read, and how the loop is left, if it is; `full` says that the buffer has no room. */
  method Answer(status: Status, full: bool, ghost e: Event)
    returns (replies: seq<Response>, leaves: Option<Outcome>)
    requires e.status == status && full == (e.pos - e.start == CAPACITY)
    ensures replies == ResponsesTo(e) && leaves.None? == GoesOn(e)
    ensures leaves.Some? ==> leaves.value == if Greets(e) then Done else InvalidData
  {
    match status {
      case Complete(n, r) =>
        if !r.get {
          return [MethodNotAllowed], Some(InvalidData);
        }
        var close, hasBody := ScanHeaders(r);
        if hasBody {
          return [BadRequest], Some(InvalidData);
        }
        return [Hello(!close)], if close then Some(Done) else None;
      case Partial =>
        if full {
          return [BadRequest], Some(InvalidData);
        }
        return [], None;
      case Malformed =>
        return [], Some(InvalidData);
    }
  }

  /**
   The server loop.  For every chunking it goes through a run of the stream, writes the responses of that run, and
   ends as the run ends, unless a read or a write fails (in turn `k`, if `fails(k, false)` or `fails(k, true)`); a read is
   never given an empty slice, so that zero bytes mean the end.
   */
  method Process(input: seq<Byte>, chunks: seq<nat>, parse: Parser, fails: (nat, bool) -> bool)
    returns (responses: seq<Response>, outcome: Outcome)
    requires Bounded(parse)
    ensures exists events :: Answers(input, parse, events, responses, outcome)
    ensures outcome == SocketError ==> exists k, write :: fails(k, write)
  {
    ghost var events: seq<Event>;
    responses, outcome, events := Loop(input, chunks, parse, fails);
  }

  /** The same, with the run it goes through. */
  method Loop(input: seq<Byte>, chunks: seq<nat>, parse: Parser, fails: (nat, bool) -> bool)
    returns (responses: seq<Response>, outcome: Outcome, ghost events: seq<Event>)
    requires Bounded(parse)
    ensures Answers(input, parse, events, responses, outcome) && Paced(input, chunks, events)
    ensures outcome == SocketError ==> exists k, write :: fails(k, write)
  {
    var buf := new Byte[CAPACITY];
    var offset: nat := 0;
    var at: nat, k: nat := 0, 0;
    responses, events := [], [];
    while true
      invariant offset <= at <= |input| && offset < CAPACITY
      invariant buf[..offset] == Held(input, at, offset)
      invariant InLoop(input, parse, chunks, events, responses, at - offset, at, k)
      decreases |input| - at
    {
      var leaves;
      offset, at, responses, leaves, events := Turn(buf, offset, input, at, parse, chunks, k, responses, fails, events);
      k := k + 1;
      if leaves.Some? {
        return responses, leaves.value, events;
      }
    }
  }

  ghost predicate InLoop(
    input: seq<Byte>, parse: Parser, chunks: seq<nat>, events: seq<Event>, responses: seq<Response>, start: nat, at: nat, k: nat)
  {
    Reading(input, parse, events, start, at) && responses == Responses(events) && Paced(input, chunks, events) && k == |events|
  }

  /** One turn of the loop. */
  method Turn(
    buf: array<Byte>, offset: nat, input: seq<Byte>, at: nat, parse: Parser, chunks: seq<nat>, k: nat,
    responses: seq<Response>, fails: (nat, bool) -> bool, ghost events: seq<Event>)
    returns (kept: nat, pos: nat, all: seq<Response>, leaves: Option<Outcome>, ghost more: seq<Event>)
    requires offset <= at <= |input| && offset < CAPACITY == buf.Length && buf[..offset] == Held(input, at, offset)
    requires InLoop(input, parse, chunks, events, responses, at - offset, at, k) && Bounded(parse)
    modifies buf
    ensures leaves.Some? ==> Answers(input, parse, more, all, leaves.value) && Paced(input, chunks, more)
    ensures leaves == Some(SocketError) ==> fails(k, false) || fails(k, true)
    ensures leaves.None? ==>
              && kept <= pos <= |input| && kept < CAPACITY && at < pos && buf[..kept] == Held(input, pos, kept)
              && InLoop(input, parse, chunks, more, all, pos - kept, pos, k + 1)
  {
    kept, pos, all, more := offset, at, responses, events;
    StopsReading(input, parse, chunks, events, responses, at - offset, at, k);
    if fails(k, false) {
      leaves := Some(SocketError);
      return;
    }
    var bytesRead := ReadInto(buf, offset, input, at, Want(chunks, k));
    if bytesRead == 0 {
      leaves := Some(if offset == 0 then Done else UnexpectedEof);
      return;
    }
    pos := at + bytesRead;
    assert buf[..offset + bytesRead] == Held(input, pos, offset + bytesRead);
    kept, all, leaves, more :=
      Handle(buf, offset + bytesRead, input, pos, offset, at, parse, events, responses, chunks, fails(k, true));
  }

  function Want(chunks: seq<nat>, k: nat): nat {
    if k < |chunks| then chunks[k] else 1
  }

  /** Each read of the run returned as much as its chunk, the room and the stream allowed. */
  predicate Paced(input: seq<Byte>, chunks: seq<nat>, events: seq<Event>) {
    events != [] ==>
      var m := |events| - 1;
      Paced(input, chunks, events[..m]) && PacedRead(input, Want(chunks, m), events[..m], events[m].pos)
  }

  predicate PacedRead(input: seq<Byte>, want: nat, before: seq<Event>, pos: nat) {
    && Start(before) <= Received(before) <= |input| && Received(before) - Start(before) <= CAPACITY
    && pos == Received(before) + Chunk(want, CAPACITY - (Received(before) - Start(before)), |input| - Received(before))
  }

  lemma ReadIsPaced(input: seq<Byte>, parse: Parser, events: seq<Event>, start: nat, at: nat, offset: nat, want: nat)
    requires offset == at - start <= CAPACITY && Reading(input, parse, events, start, at)
    ensures PacedRead(input, want, events, at + Chunk(want, CAPACITY - offset, |input| - at))
  {}

  lemma PacedMore(input: seq<Byte>, chunks: seq<nat>, events: seq<Event>, more: seq<Event>)
    requires Paced(input, chunks, events) && |more| == |events| + 1 && more[..|events|] == events
    requires PacedRead(input, Want(chunks, |events|), events, more[|events|].pos)
    ensures Paced(input, chunks, more)
  {}

  /** So every run is one that the loop goes through, for reads that return that much. */
  lemma {:induction false} EveryRunHappens(input: seq<Byte>, parse: Parser, events: seq<Event>) returns (chunks: seq<nat>)
    requires IsRun(input, parse, events)
    ensures |chunks| == |events| && Paced(input, chunks, events)
    decreases |events|
  {
    chunks := [];
    if events != [] {
      var m := |events| - 1;
      var init := EveryRunHappens(input, parse, events[..m]);
      chunks := init + [events[m].pos - Received(events[..m])];
      SamePace(input, init, chunks, events[..m]);
    }
  }

  lemma {:induction false} SamePace(input: seq<Byte>, chunks: seq<nat>, more: seq<nat>, events: seq<Event>)
    requires Paced(input, chunks, events) && |events| <= |chunks| <= |more| && more[..|chunks|] == chunks
    ensures Paced(input, more, events)
    decreases |events|
  {
    if events != [] {
      var m := |events| - 1;
      SamePace(input, chunks, more, events[..m]);
      assert more[m] == more[..|chunks|][m];
    }
  }

  /** The loop body after a read: the parser, the answer, and the bytes that are kept. */
  method Handle(
    buf: array<Byte>, offset: nat, ghost input: seq<Byte>, ghost at: nat, ghost was: nat, ghost before: nat, parse: Parser,
    ghost events: seq<Event>, responses: seq<Response>, ghost chunks: seq<nat>, fails: bool)
    returns (kept: nat, all: seq<Response>, leaves: Option<Outcome>, ghost more: seq<Event>)
    requires offset <= at <= |input| && offset <= CAPACITY == buf.Length && buf[..offset] == Held(input, at, offset)
    requires was <= before && was <= CAPACITY && InLoop(input, parse, chunks, events, responses, before - was, before, |events|)
    requires before - was == at - offset && before < at && Bounded(parse)
    requires at == before + Chunk(Want(chunks, |events|), CAPACITY - was, |input| - before)
    modifies buf
    ensures leaves.Some? ==> Answers(input, parse, more, all, leaves.value) && Paced(input, chunks, more)
    ensures leaves == Some(SocketError) ==> fails
    ensures leaves.None? ==>
              && kept <= at && kept < CAPACITY && buf[..kept] == Held(input, at, kept)
              && InLoop(input, parse, chunks, more, all, at - kept, at, |events| + 1)
  {
    var status := parse(buf[..offset]);
    ghost var e := Event(before - was, at, status);
    OneMore(input, parse, events, before, e);
    more := events + [e];
    assert more[..|more| - 1] == events;
    ReadIsPaced(input, parse, events, before - was, before, was, Want(chunks, |events|));
    PacedMore(input, chunks, events, more);
    kept, all := offset, responses;
    var replies;
    replies, leaves := Answer(status, offset == buf.Length, e);
    if replies != [] && fails {
      leaves := Some(SocketError);
      return;
    }
    all := all + replies;
    if leaves.None? && status.Complete? {
      CopyToFront(buf, status.length, offset, input, at);
      kept := offset - status.length;
    }
  }

  /** Between two turns the socket may fail, or the stream end. */
  lemma StopsReading(
    input: seq<Byte>, parse: Parser, chunks: seq<nat>, events: seq<Event>, responses: seq<Response>, start: nat, at: nat, k: nat)
    requires InLoop(input, parse, chunks, events, responses, start, at, k)
    ensures Answers(input, parse, events, responses, SocketError) && Paced(input, chunks, events) && k == |events|
    ensures at == |input| ==> Answers(input, parse, events, responses, if start == at then Done else UnexpectedEof)
  {}

  lemma Extended(all: seq<Byte>, input: seq<Byte>, start: nat, pos: nat, m: nat)
    requires start <= pos <= pos + m <= |input| && |all| == pos - start + m
    requires all[..pos - start] == input[start..pos] && all[pos - start..] == input[pos..pos + m]
    ensures all == input[start..pos + m]
  {}

  // ---------------------------------------------------------------- what is served

  /** Where request number `n` of the stream begins, when there are so many: no chunking is involved. */
  function Boundary(input: seq<Byte>, parse: Parser, n: nat): Option<nat> {
    if n == 0 then Some(0)
    else
      match Boundary(input, parse, n - 1)
      case None => None
      case Some(a) =>
        if a <= |input| && parse(input[a..]).Complete? then Some(a + parse(input[a..]).length) else None
  }

  /** Request number `n` of the stream. */
  ghost predicate IsRequest(input: seq<Byte>, parse: Parser, n: nat, r: Request) {
    match Boundary(input, parse, n)
    case None => false
    case Some(a) => a <= |input| && parse(input[a..]).Complete? && parse(input[a..]).request == r
  }

  /**
   Whatever the chunking, the requests served are the first requests of the stream, and the bytes received are
   those requests followed by what is still in the buffer.
   */
  lemma {:induction false} ServedAreFirst(input: seq<Byte>, parse: Parser, events: seq<Event>)
    requires IsRun(input, parse, events) && Bounded(parse) && Stable(parse)
    ensures Boundary(input, parse, |Served(events)|) == Some(Start(events))
    ensures Start(events) <= Received(events) <= |input|
    ensures forall n | 0 <= n < |Served(events)| :: IsRequest(input, parse, n, Served(events)[n])
    decreases |events|
  {
    if events != [] {
      var m := |events| - 1;
      var init, e := events[..m], events[m];
      ServedAreFirst(input, parse, init);
      if Greets(e) {
        NextBoundary(input, parse, |Served(init)|, e);
      }
    }
  }

  /** What follows a complete request does not matter. */
  lemma NextBoundary(input: seq<Byte>, parse: Parser, n: nat, e: Event)
    requires e.start <= e.pos <= |input| && e.status == parse(input[e.start..e.pos]) && e.status.Complete?
    requires Bounded(parse) && Stable(parse) && Boundary(input, parse, n) == Some(e.start)
    ensures Boundary(input, parse, n + 1) == Some(e.start + e.status.length)
    ensures IsRequest(input, parse, n, e.status.request) && 0 < e.status.length <= e.pos - e.start
  {
    assert Extends(input[e.start..], input[e.start..e.pos]);
  }

  function Greetings(rs: seq<Request>): seq<Response> {
    seq(|rs|, i requires 0 <= i < |rs| => Hello(!Closes(rs[i], |rs[i].headers|)))
  }

  /** What the last event of a run is refused with, if it is. */
  function Refusal(events: seq<Event>): seq<Response> {
    if events == [] || Greets(events[|events| - 1]) then [] else ResponsesTo(events[|events| - 1])
  }

  /** The responses are one greeting for each request served, in order, and at most one refusal, which comes last. */
  lemma {:induction false} OneResponseEach(input: seq<Byte>, parse: Parser, events: seq<Event>)
    requires IsRun(input, parse, events)
    ensures Responses(events) == Greetings(Served(events)) + Refusal(events) && |Refusal(events)| <= 1
    decreases |events|
  {
    if events != [] {
      OneResponseEach(input, parse, events[..|events| - 1]);
    }
  }

  /** So two chunkings of one stream serve the same requests, as far as both get. */
  lemma ChunkingDoesNotReframe(input: seq<Byte>, parse: Parser, events: seq<Event>, others: seq<Event>)
    requires IsRun(input, parse, events) && IsRun(input, parse, others) && Bounded(parse) && Stable(parse)
    requires |Served(events)| <= |Served(others)|
    ensures Served(events) <= Served(others)
  {
    ServedAreFirst(input, parse, events);
    ServedAreFirst(input, parse, others);
    var a, b := Served(events), Served(others);
    forall n | 0 <= n < |a|
      ensures a[n] == b[n]
    {
      assert IsRequest(input, parse, n, a[n]) && IsRequest(input, parse, n, b[n]);
    }
  }

  // ---------------------------------------------------------------- the end of the stream

  /** Up to where in the stream each read got. */
  function ReadEnds(events: seq<Event>): seq<nat> {
    seq(|events|, i requires 0 <= i < |events| => events[i].pos)
  }

  /** How many reads got to `b` or beyond. */
  function ReadsTo(ends: seq<nat>, b: nat): nat {
    if ends == [] then 0 else ReadsTo(ends[..|ends| - 1], b) + if ends[|ends| - 1] >= b then 1 else 0
  }

  /** From the read that completes request number `k` of `m` on, there are as many reads as requests. */
  predicate EnoughReads(input: seq<Byte>, parse: Parser, ends: seq<nat>, m: nat) {
    forall k | 1 <= k <= m :: EnoughFrom(input, parse, ends, m, k)
  }

  predicate EnoughFrom(input: seq<Byte>, parse: Parser, ends: seq<nat>, m: nat, k: nat) {
    Boundary(input, parse, k).Some? ==> ReadsTo(ends, Boundary(input, parse, k).value) >= m - k + 1
  }

  lemma {:induction false} BoundaryOrder(input: seq<Byte>, parse: Parser, j: nat, k: nat)
    requires j <= k && Boundary(input, parse, k).Some? && Bounded(parse)
    ensures Boundary(input, parse, j).Some? && Boundary(input, parse, k).value <= |input|
    ensures Boundary(input, parse, j).value + k - j <= Boundary(input, parse, k).value
  {
    if k > 0 {
      if j < k {
        BoundaryOrder(input, parse, j, k - 1);
      } else {
        BoundaryOrder(input, parse, k - 1, k - 1);
      }
    }
  }

  lemma LastRead(events: seq<Event>, b: nat)
    requires events != []
    ensures var m := |events| - 1;
            ReadsTo(ReadEnds(events), b) == ReadsTo(ReadEnds(events[..m]), b) + if events[m].pos >= b then 1 else 0
  {
    assert ReadEnds(events)[..|events| - 1] == ReadEnds(events[..|events| - 1]);
  }

  lemma {:induction false} NotReadYet(input: seq<Byte>, parse: Parser, events: seq<Event>, b: nat)
    requires IsRun(input, parse, events) && Received(events) < b
    ensures ReadsTo(ReadEnds(events), b) == 0
    decreases |events|
  {
    if events != [] {
      NotReadYet(input, parse, events[..|events| - 1], b);
      LastRead(events, b);
    }
  }

  /** The next request is complete in the buffer exactly when it has been read to its end. */
  lemma CompleteWhenRead(input: seq<Byte>, parse: Parser, n: nat, e: Event)
    requires e.start <= e.pos <= |input| && e.status == parse(input[e.start..e.pos])
    requires Bounded(parse) && Stable(parse) && Exact(parse)
    requires Boundary(input, parse, n) == Some(e.start) && Boundary(input, parse, n + 1).Some?
    ensures e.status.Complete? <==> Boundary(input, parse, n + 1).value <= e.pos
  {
    if e.status.Complete? {
      NextBoundary(input, parse, n, e);
    }
    var rest := input[e.start..];
    var own := rest[..parse(rest).length];
    assert Extends(rest, own);
    if e.start + |own| <= e.pos {
      assert Extends(input[e.start..e.pos], own);
    }
  }

  /** A read serves one request at most, and only one that it got to the end of. */
  lemma OneServedPerRead(input: seq<Byte>, parse: Parser, events: seq<Event>)
    requires IsRun(input, parse, events) && events != [] && Bounded(parse) && Stable(parse)
    ensures var e, m := events[|events| - 1], |Served(events[..|events| - 1])|;
            if Greets(e) then
              |Served(events)| == m + 1 && Boundary(input, parse, m + 1).Some? && Boundary(input, parse, m + 1).value <= e.pos
            else
              |Served(events)| == m
  {
    var init, e := events[..|events| - 1], events[|events| - 1];
    ServedAreFirst(input, parse, init);
    if Greets(e) {
      NextBoundary(input, parse, |Served(init)|, e);
    }
  }

  /** Each request served took a read of its own, which got to its end. */
  lemma {:induction false} ServedTakesReads(input: seq<Byte>, parse: Parser, events: seq<Event>, k: nat, b: nat)
    requires IsRun(input, parse, events) && Bounded(parse) && Stable(parse)
    requires 1 <= k <= |Served(events)| && Boundary(input, parse, k) == Some(b)
    ensures ReadsTo(ReadEnds(events), b) >= |Served(events)| - k + 1
    decreases |events|
  {
    var init, e := events[..|events| - 1], events[|events| - 1];
    var m := |Served(init)|;
    OneServedPerRead(input, parse, events);
    LastRead(events, b);
    if Greets(e) {
      BoundaryOrder(input, parse, k, m + 1);
      assert ReadsTo(ReadEnds(events), b) == ReadsTo(ReadEnds(init), b) + 1;
    }
    if k <= m {
      ServedTakesReads(input, parse, init, k, b);
    }
  }

  /** An unserved read means that the next request has not been read to its end. */
  lemma UnservedRead(input: seq<Byte>, parse: Parser, events: seq<Event>, b: nat)
    requires IsRun(input, parse, events) && events != [] && Bounded(parse) && Stable(parse) && Exact(parse)
    requires KeepsOn(events) && !Greets(events[|events| - 1])
    requires Boundary(input, parse, |Served(events)| + 1) == Some(b)
    ensures ReadsTo(ReadEnds(events), b) == 0
  {
    var init, e := events[..|events| - 1], events[|events| - 1];
    OneServedPerRead(input, parse, events);
    ServedAreFirst(input, parse, init);
    CompleteWhenRead(input, parse, |Served(init)|, e);
    NotReadYet(input, parse, events, b);
  }

  /** While a request is unserved, there is one from which on every read has served one. */
  lemma {:induction false} NoReadWasted(input: seq<Byte>, parse: Parser, events: seq<Event>) returns (k: nat, b: nat)
    requires IsRun(input, parse, events) && KeepsOn(events) && Bounded(parse) && Stable(parse) && Exact(parse)
    requires Boundary(input, parse, |Served(events)| + 1).Some?
    ensures 1 <= k <= |Served(events)| + 1 && Boundary(input, parse, k) == Some(b)
    ensures ReadsTo(ReadEnds(events), b) + k - 1 <= |Served(events)|
    decreases |events|
  {
    k, b := |Served(events)| + 1, Boundary(input, parse, |Served(events)| + 1).value;
    if events != [] {
      if Greets(events[|events| - 1]) {
        OneServedPerRead(input, parse, events);
        k, b := NoReadWasted(input, parse, events[..|events| - 1]);
        LastRead(events, b);
      } else {
        UnservedRead(input, parse, events, b);
      }
    }
  }

  /**
   Which requests are answered.  A run that goes on to the end of the stream serves the first `m` requests of the stream
   exactly if, for every one of them, from its last byte on there were as many reads as there were requests from it on.
   */
  lemma AllServed(input: seq<Byte>, parse: Parser, events: seq<Event>, m: nat)
    requires IsRun(input, parse, events) && KeepsOn(events) && Bounded(parse) && Stable(parse) && Exact(parse)
    requires Boundary(input, parse, m).Some?
    ensures m <= |Served(events)| <==> EnoughReads(input, parse, ReadEnds(events), m)
  {
    var served := |Served(events)|;
    if m <= served {
      forall k | 1 <= k <= m
        ensures EnoughFrom(input, parse, ReadEnds(events), m, k)
      {
        if Boundary(input, parse, k).Some? {
          ServedTakesReads(input, parse, events, k, Boundary(input, parse, k).value);
        }
      }
    } else {
      BoundaryOrder(input, parse, served + 1, m);
      var k, b := NoReadWasted(input, parse, events);
      assert !EnoughFrom(input, parse, ReadEnds(events), m, k);
    }
  }

  /** So a stream of `m` whole requests ends well exactly if there were enough reads; else with an error and a request lost. */
  lemma EndOfStream(input: seq<Byte>, parse: Parser, events: seq<Event>, m: nat, outcome: Outcome)
    requires IsRun(input, parse, events) && KeepsOn(events) && Bounded(parse) && Stable(parse) && Exact(parse)
    requires Ends(input, events, outcome) && Boundary(input, parse, m) == Some(|input|)
    ensures outcome == Done <==> EnoughReads(input, parse, ReadEnds(events), m)
    ensures outcome == UnexpectedEof <==> |Served(events)| < m
  {
    var served := |Served(events)|;
    AllServed(input, parse, events, m);
    ServedAreFirst(input, parse, events);
    if served < m {
      BoundaryOrder(input, parse, served, m);
    } else {
      BoundaryOrder(input, parse, m, served);
    }
  }

  /** No read brought bytes beyond the request it completed: the client waited for each answer. */
  predicate Unpipelined(events: seq<Event>) {
    forall i | 0 <= i < |events| :: Greets(events[i]) ==> Consumed(events[i]) == events[i].pos
  }

  /** What is then left at the end of the stream is no complete request. */
  lemma NothingLeft(input: seq<Byte>, parse: Parser, events: seq<Event>)
    requires IsRun(input, parse, events) && KeepsOn(events) && Received(events) == |input| && Unpipelined(events)
    requires Bounded(parse)
    ensures Start(events) <= |input| && !parse(input[Start(events)..]).Complete?
  {
    if events == [] {
      assert |input| == 0;
    } else {
      var e := events[|events| - 1];
      assert Follows(input, parse, events[..|events| - 1], e);
      assert input[e.start..e.pos] == input[e.start..];
    }
  }

  /** Every request of a client that waits for each answer is answered. */
  lemma WaitingClient(input: seq<Byte>, parse: Parser, events: seq<Event>, m: nat)
    requires IsRun(input, parse, events) && KeepsOn(events) && Received(events) == |input| && Unpipelined(events)
    requires Bounded(parse) && Stable(parse) && Boundary(input, parse, m).Some?
    ensures m <= |Served(events)|
  {
    var served := |Served(events)|;
    ServedAreFirst(input, parse, events);
    NothingLeft(input, parse, events);
    if served < m {
      BoundaryOrder(input, parse, served + 1, m);
    }
  }

  /** Two requests that arrive in one read, and then the end: a run that leaves the second, complete request unanswered. */
  lemma PipelinedRequestLost(input: seq<Byte>, parse: Parser)
    requires 0 < |input| < CAPACITY && Bounded(parse) && parse(input).Complete?
    requires var n := parse(input).length; n < |input| && parse(input[n..]).Complete?
    requires GoesOn(Event(0, |input|, parse(input)))
    ensures var events := [Event(0, |input|, parse(input))];
            && IsRun(input, parse, events) && Ends(input, events, UnexpectedEof)
            && parse(input[Start(events)..]).Complete? && |Served(events)| == 1
  {
    var e := Event(0, |input|, parse(input));
    assert input[0..|input|] == input;
    OneMore(input, parse, [], 0, e);
    assert [] + [e] == [e];
  }
}

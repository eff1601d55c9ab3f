/**
 Network permissions, IPv4 side: `parse_addresses` and the option callback that feeds it (src/config.cpp:124-238,
 516-537), and the check made for every connect, bind and listen (`validate_network_access`, src/vm.cpp:101-127).

 Addresses and ports are numbers; both sides of every comparison are in network byte order in the program,
 so the order does not matter here.
 */
module Network {
  import opened Wrappers
  import opened Numerals

  /** An allowed endpoint; zero stands for any address or any port. */
  datatype Entry = Entry(addr: nat, port: nat)

  datatype Resolved = Inet(addr: nat) | Inet6 | OtherFamily

  /** The host library: `inet_pton` for both families, and `getaddrinfo`. */
  datatype Host = Host(pton4: string -> Option<nat>, pton6: string -> bool, resolve: string -> Option<seq<Resolved>>)

  datatype Error = InvalidPort | InvalidIpv6 | InvalidDomain | InvalidFamily

  // ---------------------------------------------------------------- one rule

  /** The position of the last character that is no digit; -1 for `npos`. */
  function LastNonDigit(s: string): (i: int)
    ensures -1 <= i < |s|
    ensures forall j | i < j < |s| :: IsDecimal(s[j])
    ensures i >= 0 ==> !IsDecimal(s[i])
  {
    if s == [] then -1
    else if !IsDecimal(s[|s| - 1]) then |s| - 1
    else LastNonDigit(s[..|s| - 1])
  }

  /** `std::stoul` of digits, narrowed to 32 bits before the range check. */
  function ParsePort(digits: string): Option<nat> {
    var v := Value(digits, 10);
    if digits == [] || v >= TWO_64 || v % TWO_32 > 0xFFFF then None else Some(v % TWO_32)
  }

  /** What a value of one of the three options asks for, as far as IPv4 is concerned. */
  datatype Rule =
    | Nothing                              // empty, or "false"
    | Everything                           // "true", or no address and port zero
    | Endpoints(addrs: seq<nat>, port: nat)

  function ParseRule(value: string, host: Host): Result<Rule, Error> {
    if value == [] || value == "false" then Success(Nothing)
    else
      var address := if value == "true" then "" else value;
      var colon := LastNonDigit(address);
      if colon >= 0 && address[colon] == ':' then
        match ParsePort(address[colon + 1..])
        case None => Failure(InvalidPort)
        case Some(port) => ParseAddress(value, address[..colon], port, host)
      else ParseAddress(value, address, 0, host)
  }

  function ParseAddress(value: string, address: string, port: nat, host: Host): Result<Rule, Error> {
    if address == "" then Success(if port == 0 then Everything else Endpoints([0], port))
    else if address[0] == '[' then
      if address[|address| - 1] != ']' then Failure(InvalidIpv6)
      else if host.pton6(Substring(address, 1, |value| - 2)) then Success(Nothing)
      else Failure(InvalidIpv6)
    else
      match host.pton4(address)
      case Some(addr) => Success(Endpoints([addr], port))
      case None =>
        match host.resolve(address)
        case None => Failure(InvalidDomain)
        case Some(found) => if OtherFamily in found then Failure(InvalidFamily) else Success(Endpoints(Inets(found), port))
  }

  /** `substr(from, count)`, cut off at the end of the string. */
  function Substring(s: string, from: nat, count: int): string
    requires from <= |s|
  {
    if count <= 0 then "" else if from + count >= |s| then s[from..] else s[from..from + count]
  }

  function Inets(found: seq<Resolved>): seq<nat> {
    if found == [] then []
    else Inets(found[..|found| - 1]) + match found[|found| - 1] { case Inet(addr) => [addr] case _ => [] }
  }

  /** A rule covers an endpoint. */
  predicate Covers(rule: Rule, addr: nat, port: nat) {
    match rule
    case Nothing => false
    case Everything => true
    case Endpoints(addrs, p) => (p == 0 || p == port) && (0 in addrs || addr in addrs)
  }

  /** How values are read; `Rules` below is the reader of the program. */
  type Reader = string -> Result<Rule, Error>

  function Rules(host: Host): Reader {
    value => ParseRule(value, host)
  }

  predicate Matches(value: string, read: Reader, addr: nat, port: nat) {
    read(value).Success? && Covers(read(value).value, addr, port)
  }

  predicate AnyMatches(values: seq<string>, read: Reader, addr: nat, port: nat) {
    exists i | 0 <= i < |values| :: Matches(values[i], read, addr, port)
  }

  predicate IsEverything(value: string, read: Reader) {
    read(value) == Success(Everything)
  }

  // ---------------------------------------------------------------- the check

  predicate Admits(e: Entry, addr: nat, port: nat) {
    (addr == e.addr || e.addr == 0) && (port == e.port || e.port == 0)
  }

  predicate Allowed(allowed: seq<Entry>, addr: nat, port: nat) {
    exists i | 0 <= i < |allowed| :: Admits(allowed[i], addr, port)
  }

  method ValidateNetworkAccess(addr: nat, port: nat, allowed: seq<Entry>) returns (ok: bool)
    ensures ok <==> Allowed(allowed, addr, port)
  {
    for i := 0 to |allowed|
      invariant forall j | 0 <= j < i :: !Admits(allowed[j], addr, port)
    {
      var e := allowed[i];
      if addr == e.addr || e.addr == 0 {
        if port == e.port || e.port == 0 {
          assert Admits(allowed[i], addr, port);
          return true;
        }
      }
    }
    return false;
  }

  // ---------------------------------------------------------------- the list

  function EntriesOf(rule: Rule): seq<Entry> {
    match rule
    case Nothing => []
    case Everything => [Entry(0, 0)]
    case Endpoints(addrs, port) => seq(|addrs|, i requires 0 <= i < |addrs| => Entry(addrs[i], port))
  }

  lemma EntriesCover(rule: Rule, addr: nat, port: nat)
    ensures Allowed(EntriesOf(rule), addr, port) <==> Covers(rule, addr, port)
  {
    var es := EntriesOf(rule);
    match rule
    case Nothing =>
    case Everything => assert Admits(es[0], addr, port);
    case Endpoints(addrs, p) =>
      assert forall i | 0 <= i < |addrs| :: es[i] == Entry(addrs[i], p);
  }

  lemma AllowedAppend(a: seq<Entry>, b: seq<Entry>, addr: nat, port: nat)
    ensures Allowed(a + b, addr, port) <==> Allowed(a, addr, port) || Allowed(b, addr, port)
  {
    var c := a + b;
    assert forall i | 0 <= i < |a| :: c[i] == a[i];
    assert forall i | 0 <= i < |b| :: c[|a| + i] == b[i];
    assert forall i | |a| <= i < |c| :: c[i] == b[i - |a|];
  }

  datatype List = List(entries: seq<Entry>, all: bool)

  /** What a list of values leaves in a vector: the rules in order, up to the first that allows everything. */
  function Parsed(values: seq<string>, before: seq<Entry>, read: Reader): Result<List, Error> {
    if values == [] then Success(List(before, false))
    else
      match read(values[0])
      case Failure(e) => Failure(e)
      case Success(Everything) => Success(List([Entry(0, 0)], true))
      case Success(rule) => Parsed(values[1..], before + EntriesOf(rule), read)
  }

  /** The loop of `parse_addresses` over its vector. */
  method ParseAddresses(values: seq<string>, before: seq<Entry>, read: Reader) returns (r: Result<List, Error>)
    ensures r == Parsed(values, before, read)
  {
    var allowed := before;
    for i := 0 to |values|
      invariant Parsed(values[i..], allowed, read) == Parsed(values, before, read)
    {
      assert values[i..][0] == values[i] && values[i..][1..] == values[i + 1..];
      var rule := read(values[i]);
      match rule {
        case Failure(e) => return Failure(e);
        case Success(Nothing) => assert allowed + [] == allowed;
        case Success(Everything) =>
          allowed := [];
          allowed := allowed + [Entry(0, 0)];
          assert allowed == [Entry(0, 0)];
          return Success(List(allowed, true));
        case Success(Endpoints(addrs, port)) =>
          ghost var was, es := allowed, EntriesOf(Endpoints(addrs, port));
          for j := 0 to |addrs|
            invariant allowed == was + es[..j]
          {
            allowed := allowed + [Entry(addrs[j], port)];
            assert es[..j + 1] == es[..j] + [es[j]];
          }
          assert es[..|addrs|] == es;
      }
    }
    r := Success(List(allowed, false));
  }

  /** A bad value with nothing before it that allows everything. */
  predicate Rejected(values: seq<string>, read: Reader) {
    exists i | 0 <= i < |values| :: read(values[i]).Failure? && forall j | 0 <= j < i :: !IsEverything(values[j], read)
  }

  predicate AllowsAll(values: seq<string>, read: Reader) {
    exists i | 0 <= i < |values| :: IsEverything(values[i], read)
  }

  /** Exactly when a list is rejected, and when an accepted one says that it allows everything. */
  lemma {:induction false} ParsedFails(values: seq<string>, before: seq<Entry>, read: Reader)
    ensures Parsed(values, before, read).Failure? <==> Rejected(values, read)
    ensures Parsed(values, before, read).Success? ==> (Parsed(values, before, read).value.all <==> AllowsAll(values, read))
    decreases |values|
  {
    if values != [] {
      var rest := values[1..];
      match read(values[0]) {
        case Failure(_) =>
        case Success(rule) =>
          if rule != Everything {
            ParsedFails(rest, before + EntriesOf(rule), read);
            assert forall i | 1 <= i < |values| :: values[i] == rest[i - 1];
            assert forall i | 0 <= i < |rest| :: rest[i] == values[i + 1];
          }
      }
    }
  }

  /** An accepted list allows what was allowed before or matches one of its values; the clear and the early return show nowhere. */
  lemma {:induction false} ParsedMeans(values: seq<string>, before: seq<Entry>, read: Reader, addr: nat, port: nat)
    requires Parsed(values, before, read).Success?
    ensures var r := Parsed(values, before, read).value;
            && (Allowed(r.entries, addr, port) <==> Allowed(before, addr, port) || AnyMatches(values, read, addr, port))
            && (r.all ==> AnyMatches(values, read, addr, port))
    decreases |values|
  {
    if values != [] {
      var rest := values[1..];
      var rule := read(values[0]).value;
      assert AnyMatches(values, read, addr, port) <==> Covers(rule, addr, port) || AnyMatches(rest, read, addr, port) by {
        assert forall i | 1 <= i < |values| :: values[i] == rest[i - 1];
        assert forall i | 0 <= i < |rest| :: rest[i] == values[i + 1];
        assert Matches(values[0], read, addr, port) <==> Covers(rule, addr, port);
      }
      EntriesCover(rule, addr, port);
      if rule != Everything {
        ParsedMeans(rest, before + EntriesOf(rule), read, addr, port);
        AllowedAppend(before, EntriesOf(rule), addr, port);
      }
    }
  }

  // ---------------------------------------------------------------- the three options together

  datatype Policy = Policy(connect: seq<Entry>, listen: seq<Entry>)

  /** The option callback: `--allow-net` into both vectors, then the other two unless it allowed everything. */
  method BuildPolicy(net: seq<string>, connect: seq<string>, listen: seq<string>, read: Reader)
    returns (r: Result<Policy, Error>)
    ensures r == PolicyOf(net, connect, listen, read)
    ensures r.Failure? <==>
              Rejected(net, read) || (!AllowsAll(net, read) && (Rejected(connect, read) || Rejected(listen, read)))
    ensures r.Success? ==> forall addr, port ::
              && (Allowed(r.value.connect, addr, port) <==> AnyMatches(net, read, addr, port) || AnyMatches(connect, read, addr, port))
              && (Allowed(r.value.listen, addr, port) <==> AnyMatches(net, read, addr, port) || AnyMatches(listen, read, addr, port))
  {
    PolicyFails(net, connect, listen, read);
    forall addr, port | PolicyOf(net, connect, listen, read).Success?
      ensures var p := PolicyOf(net, connect, listen, read).value;
              && (Allowed(p.connect, addr, port) <==> AnyMatches(net, read, addr, port) || AnyMatches(connect, read, addr, port))
              && (Allowed(p.listen, addr, port) <==> AnyMatches(net, read, addr, port) || AnyMatches(listen, read, addr, port))
    {
      UnionSemantics(net, connect, listen, read, addr, port);
    }
    var shared :- ParseAddresses(net, [], read);
    if shared.all {
      return Success(Policy(shared.entries, shared.entries));
    }
    var c :- ParseAddresses(connect, shared.entries, read);
    var l :- ParseAddresses(listen, shared.entries, read);
    r := Success(Policy(c.entries, l.entries));
  }

  function PolicyOf(net: seq<string>, connect: seq<string>, listen: seq<string>, read: Reader): Result<Policy, Error> {
    var shared :- Parsed(net, [], read);
    if shared.all then Success(Policy(shared.entries, shared.entries))
    else
      var c :- Parsed(connect, shared.entries, read);
      var l :- Parsed(listen, shared.entries, read);
      Success(Policy(c.entries, l.entries))
  }

  /**
   The policy of an accepted command line is the union of its rules: an endpoint may be connected to exactly when
   some `--allow-net` or `--allow-connect` value covers it, and likewise for listening.  Clearing the vectors,
   stopping at a value that allows everything and skipping the other two options change no decision.
   */
  lemma UnionSemantics(net: seq<string>, connect: seq<string>, listen: seq<string>, read: Reader, addr: nat, port: nat)
    requires PolicyOf(net, connect, listen, read).Success?
    ensures var p := PolicyOf(net, connect, listen, read).value;
            && (Allowed(p.connect, addr, port) <==> AnyMatches(net, read, addr, port) || AnyMatches(connect, read, addr, port))
            && (Allowed(p.listen, addr, port) <==> AnyMatches(net, read, addr, port) || AnyMatches(listen, read, addr, port))
  {
    ParsedMeans(net, [], read, addr, port);
    var shared := Parsed(net, [], read).value;
    if !shared.all {
      ParsedMeans(connect, shared.entries, read, addr, port);
      ParsedMeans(listen, shared.entries, read, addr, port);
    }
  }

  /** A command line is rejected for a bad value, unless one that allows everything spared it. */
  lemma PolicyFails(net: seq<string>, connect: seq<string>, listen: seq<string>, read: Reader)
    ensures PolicyOf(net, connect, listen, read).Failure? <==>
              Rejected(net, read) || (!AllowsAll(net, read) && (Rejected(connect, read) || Rejected(listen, read)))
  {
    ParsedFails(net, [], read);
    if Parsed(net, [], read).Success? {
      var shared := Parsed(net, [], read).value;
      ParsedFails(connect, shared.entries, read);
      ParsedFails(listen, shared.entries, read);
    }
  }

  // ---------------------------------------------------------------- port numbers

  /** A port is read as it is written exactly when it is a port; larger numbers are rejected unless they wrap onto one. */
  lemma PortAsWritten(n: nat)
    ensures ParsePort(Digits(n, 10)) == Some(n) <==> n <= 0xFFFF
    ensures ParsePort(Digits(n, 10)).Some? <==> n < TWO_64 && n % TWO_32 <= 0xFFFF
  {
    ValueOfDigits(n, 10);
    Narrowing(n);
  }

  lemma Narrowing(n: nat)
    ensures n <= 0xFFFF <==> n < TWO_64 && n % TWO_32 <= 0xFFFF && n % TWO_32 == n
  {}

  /** The smallest number that is accepted without being a port wraps onto port zero, which means any port. */
  lemma PortThatWraps(n: nat)
    requires n > 0xFFFF && ParsePort(Digits(n, 10)).Some?
    ensures TWO_32 <= n && (n == TWO_32 ==> ParsePort(Digits(n, 10)) == Some(0))
  {
    ValueOfDigits(n, 10);
  }

  lemma {:induction false} LastColon(address: string, d: string)
    requires AreDigits(d, 10)
    ensures LastNonDigit(address + [':'] + d) == |address|
    decreases |d|
  {
    var value := address + [':'] + d;
    if d == [] {
      assert value[|value| - 1] == ':';
    } else {
      assert value[..|value| - 1] == address + [':'] + d[..|d| - 1];
      LastColon(address, d[..|d| - 1]);
    }
  }

  lemma NotAWord(value: string, i: nat)
    requires i < |value| && value[i] == ':'
    ensures value != "true" && value != "false"
  {}

  // ---------------------------------------------------------------- what the values mean

  const TRUE := "true"
  const FALSE := "false"
  const NONE := ""

  /** An address, with or without a number behind it. */
  function Written(address: string, port: Option<nat>): string {
    match port
    case None => address
    case Some(n) => address + [':'] + Digits(n, 10)
  }

  function PortOf(port: Option<nat>): nat {
    match port
    case None => 0
    case Some(n) => n
  }

  /** A colon with only digits behind it. */
  predicate EndsInNumber(s: string) {
    exists i | 0 <= i < |s| :: s[i] == ':' && forall j | i < j < |s| :: IsDecimal(s[j])
  }

  /** Written like this the two can be told apart: a number that is a port, or an address that is no word and ends in no number. */
  predicate Legible(address: string, port: Option<nat>) {
    match port
    case None => address != NONE && address != TRUE && address != FALSE && !EndsInNumber(address)
    case Some(n) => n <= 0xFFFF
  }

  lemma Divided(address: string, d: string, host: Host)
    requires AreDigits(d, 10)
    ensures ParseRule(address + [':'] + d, host) ==
            match ParsePort(d)
            case None => Failure(InvalidPort)
            case Some(n) => ParseAddress(address + [':'] + d, address, n, host)
  {
    var value := address + [':'] + d;
    LastColon(address, d);
    assert value[|address|] == ':' && value[|address| + 1..] == d && value[..|address|] == address;
    NotAWord(value, |address|);
  }

  lemma Read(address: string, port: Option<nat>, host: Host)
    requires Legible(address, port)
    ensures ParseRule(Written(address, port), host) == ParseAddress(Written(address, port), address, PortOf(port), host)
  {
    match port
    case None =>
      var i := LastNonDigit(address);
      if i >= 0 && address[i] == ':' {
        assert EndsInNumber(address);
      }
    case Some(n) =>
      DigitsShape(n, 10);
      PortAsWritten(n);
      Divided(address, Digits(n, 10), host);
  }

  /** The words: nothing and `false` allow nothing, `true` allows everything. */
  lemma WordRules(host: Host)
    ensures ParseRule(NONE, host) == Success(Nothing) && ParseRule(FALSE, host) == Success(Nothing)
    ensures ParseRule(TRUE, host) == Success(Everything)
  {
    assert LastNonDigit(NONE) == -1;
  }

  /** A port alone is that port of every address, and port zero is everything. */
  lemma PortRule(n: nat, host: Host)
    requires n <= 0xFFFF
    ensures ParseRule(Written(NONE, Some(n)), host) == Success(if n == 0 then Everything else Endpoints([0], n))
  {
    Read(NONE, Some(n), host);
  }

  /** An IPv4 literal is that address, with its port or with any. */
  lemma AddressRule(address: string, port: Option<nat>, addr: nat, host: Host)
    requires address != [] && address[0] != '[' && host.pton4(address) == Some(addr) && Legible(address, port)
    ensures ParseRule(Written(address, port), host) == Success(Endpoints([addr], PortOf(port)))
  {
    Read(address, port, host);
  }

  /** Any other name is what it resolves to, as far as that is IPv4, and an error when it does not resolve or to something else. */
  lemma NameRule(address: string, port: Option<nat>, host: Host)
    requires address != [] && address[0] != '[' && host.pton4(address) == None && Legible(address, port)
    ensures var r := ParseRule(Written(address, port), host);
            match host.resolve(address)
            case None => r == Failure(InvalidDomain)
            case Some(found) =>
              if OtherFamily in found then r == Failure(InvalidFamily)
              else
                && r.Success? && r.value.Endpoints? && r.value.port == PortOf(port)
                && (forall x :: x in r.value.addrs <==> Inet(x) in found)
  {
    Read(address, port, host);
    if host.resolve(address).Some? {
      InetsAre(host.resolve(address).value);
    }
  }

  lemma {:induction false} InetsAre(found: seq<Resolved>)
    ensures forall x :: x in Inets(found) <==> Inet(x) in found
  {
    if found != [] {
      var n := |found| - 1;
      InetsAre(found[..n]);
      assert found == found[..n] + [found[n]];
    }
  }

  /**
   An address in brackets says nothing about IPv4.  It is accepted exactly if it is an IPv6 address; but with a number behind it,
   exactly if it is one together with its closing bracket, since the length to cut is taken from the whole value.
   */
  lemma BracketRule(inner: string, port: Option<nat>, host: Host)
    requires port.Some? ==> port.value <= 0xFFFF
    ensures var address := ['['] + inner + [']'];
            ParseRule(Written(address, port), host) ==
            if host.pton6(if port.None? then inner else inner + [']']) then Success(Nothing) else Failure(InvalidIpv6)
  {
    var address := ['['] + inner + [']'];
    assert address[|address| - 1] == ']' && address[0] == '[';
    Read(address, port, host);
    assert address[1..] == inner + [']'] && address[1..|address| - 1] == inner;
  }

  /** A colon at the end is an error, and so is a number that is no port and does not wrap onto one. */
  lemma BadPortRule(address: string, n: nat, host: Host)
    ensures ParseRule(address + [':'] + [], host) == Failure(InvalidPort)
    ensures n >= TWO_64 || n % TWO_32 > 0xFFFF ==> ParseRule(Written(address, Some(n)), host) == Failure(InvalidPort)
  {
    Divided(address, [], host);
    DigitsShape(n, 10);
    PortAsWritten(n);
    Divided(address, Digits(n, 10), host);
  }

  /** An IPv4 literal and a number are read as that address and that port exactly if the number is a port. */
  lemma LiteralRule(address: string, addr: nat, n: nat, host: Host)
    requires address != [] && address[0] != '[' && host.pton4(address) == Some(addr)
    ensures ParseRule(address + [':'] + Digits(n, 10), host) == Success(Endpoints([addr], n)) <==> n <= 0xFFFF
    ensures ParseRule(address + [':'] + Digits(n, 10), host).Failure? <==> n >= TWO_64 || n % TWO_32 > 0xFFFF
  {
    DigitsShape(n, 10);
    PortAsWritten(n);
    Divided(address, Digits(n, 10), host);
  }

  /** One IPv4 rule on the command line, from its text to the decision: its address, or any for zero, and its port, or any for zero. */
  lemma OneRule(address: string, port: Option<nat>, addr: nat, host: Host, x: nat, q: nat)
    requires address != [] && address[0] != '[' && host.pton4(address) == Some(addr) && Legible(address, port)
    ensures PolicyOf([Written(address, port)], [], [], Rules(host)).Success?
    ensures var p := PolicyOf([Written(address, port)], [], [], Rules(host)).value;
            && (Allowed(p.connect, x, q) <==> (x == addr || addr == 0) && (q == PortOf(port) || PortOf(port) == 0))
            && (Allowed(p.listen, x, q) <==> Allowed(p.connect, x, q))
  {
    var read, value := Rules(host), Written(address, port);
    AddressRule(address, port, addr, host);
    assert read(value) == Success(Endpoints([addr], PortOf(port)));
    PolicyFails([value], [], [], read);
    UnionSemantics([value], [], [], read, x, q);
    assert AnyMatches([value], read, x, q) <==> Matches([value][0], read, x, q);
  }

  predicate SaysNo(value: string) {
    value == NONE || value == FALSE
  }

  /** Options that are empty or say `false` let a guest connect and listen nowhere. */
  lemma NothingAllowed(net: seq<string>, connect: seq<string>, listen: seq<string>, host: Host)
    requires forall v | v in net + connect + listen :: SaysNo(v)
    ensures PolicyOf(net, connect, listen, Rules(host)).Success?
    ensures var p := PolicyOf(net, connect, listen, Rules(host)).value;
            forall addr, port :: !Allowed(p.connect, addr, port) && !Allowed(p.listen, addr, port)
  {
    WordRules(host);
    var read := Rules(host);
    forall v | v in net + connect + listen
      ensures read(v) == Success(Nothing)
    {}
    PolicyFails(net, connect, listen, read);
    assert !Rejected(net, read) by { assert forall v | v in net :: v in net + connect + listen; }
    assert !Rejected(connect, read) by { assert forall v | v in connect :: v in net + connect + listen; }
    assert !Rejected(listen, read) by { assert forall v | v in listen :: v in net + connect + listen; }
    forall addr, port
      ensures var p := PolicyOf(net, connect, listen, read).value; !Allowed(p.connect, addr, port) && !Allowed(p.listen, addr, port)
    {
      UnionSemantics(net, connect, listen, read, addr, port);
      assert forall v | v in net :: v in net + connect + listen;
      assert forall v | v in connect :: v in net + connect + listen;
      assert forall v | v in listen :: v in net + connect + listen;
    }
  }

  /** `--allow-net=true` lets it connect and listen everywhere, if nothing before it is an error. */
  lemma EverythingAllowed(net: seq<string>, connect: seq<string>, listen: seq<string>, host: Host, addr: nat, port: nat)
    requires TRUE in net && !Rejected(net, Rules(host))
    ensures PolicyOf(net, connect, listen, Rules(host)).Success?
    ensures var p := PolicyOf(net, connect, listen, Rules(host)).value; Allowed(p.connect, addr, port) && Allowed(p.listen, addr, port)
  {
    WordRules(host);
    var read := Rules(host);
    var i :| 0 <= i < |net| && net[i] == TRUE;
    assert IsEverything(net[i], read) && Matches(net[i], read, addr, port);
    PolicyFails(net, connect, listen, read);
    UnionSemantics(net, connect, listen, read, addr, port);
  }
}

/** The memory remapping option `virt:size(mb)[:phys=0][:r?w?x?=rw]` (`add_remapping`, src/config.cpp:29-100). */
module Remapping {
  import opened Wrappers
  import opened Numerals
  import Split

  datatype Remapping = Remapping(virt: nat, phys: nat, size: nat, writable: bool, executable: bool)

  datatype Error = TooFewParts | TooManyParts | BadVirt(e: NumberError) | BadSize(e: NumberError) | BadPhys(e: NumberError) | BadRights

  /** `item.find_first_not_of("0123456789") != 0`: the third part is an address unless it starts with something else. */
  predicate LooksPhysical(item: string) {
    item == [] || IsDecimal(item[0])
  }

  /** Optional `r`, `w` and `x`, in this order and nothing else; `r` says nothing. */
  function ParseRights(item: string): (r: Option<(bool, bool)>)
    ensures r.Some? <==> exists a: bool, b: bool, c: bool :: item == Rights(a, b, c)
    ensures r.Some? ==> (r.value.0 <==> 'w' in item) && (r.value.1 <==> 'x' in item)
  {
    var i := if |item| > 0 && item[0] == 'r' then 1 else 0;
    var w := |item| > i && item[i] == 'w';
    var j := if w then i + 1 else i;
    var x := |item| > j && item[j] == 'x';
    var k := if x then j + 1 else j;
    assert k == |item| ==> item == Rights(i == 1, w, x);
    if k != |item| then None else Some((w, x))
  }

  function Rights(r: bool, w: bool, x: bool): string {
    (if r then "r" else "") + (if w then "w" else "") + (if x then "x" else "")
  }

  /** The eight forms, each for its own rights. */
  lemma RightsAre()
    ensures Rights(false, false, false) == "" && Rights(true, false, false) == "r"
    ensures Rights(false, true, false) == "w" && Rights(true, true, false) == "rw"
    ensures Rights(false, false, true) == "x" && Rights(true, false, true) == "rx"
    ensures Rights(false, true, true) == "wx" && Rights(true, true, true) == "rwx"
  {}

  function Parse(remap: string): Result<Remapping, Error> {
    OfParts(Split.Pieces(remap, ':'))
  }

  function OfParts(parts: seq<string>): Result<Remapping, Error>
    requires parts != []
  {
    match Stoull(parts[0])
    case Failure(e) => Failure(BadVirt(e))
    case Success(virt) =>
      if |parts| == 1 then Failure(TooFewParts)
      else
        match Stoull(parts[1])
        case Failure(e) => Failure(BadSize(e))
        case Success(mb) => ParseTail(parts[2..], Remapping(virt, 0, mb * TWO_20 % TWO_64, false, false))
  }

  /** The optional parts: an address, then rights; without rights the memory is writable. */
  function ParseTail(parts: seq<string>, r: Remapping): Result<Remapping, Error> {
    if parts == [] then Success(r.(writable := true))
    else if LooksPhysical(parts[0]) then
      match Stoull(parts[0])
      case Failure(e) => Failure(BadPhys(e))
      case Success(phys) =>
        if |parts| == 1 then Success(r.(phys := phys, writable := true))
        else ParseLast(parts[1..], r.(phys := phys))
    else ParseLast(parts, r)
  }

  function ParseLast(parts: seq<string>, r: Remapping): Result<Remapping, Error>
    requires parts != []
  {
    match ParseRights(parts[0])
    case None => Failure(BadRights)
    case Some((w, x)) =>
      if |parts| > 1 then Failure(TooManyParts) else Success(r.(writable := w, executable := x))
  }

  /** The option handler: a new remapping is filled in part by part, advancing over the pieces. */
  method AddRemapping(remap: string, remappings: seq<Remapping>) returns (r: Result<seq<Remapping>, Error>)
    ensures match Parse(remap)
            case Success(m) => r == Success(remappings + [m])
            case Failure(e) => r == Failure(e)
  {
    var remapping := Remapping(0, 0, 0, false, false);
    var parts := Split.SplitAt(remap, ':');
    var it := 0;
    var virt := Stoull(parts[it]);
    if virt.Failure? {
      return Failure(BadVirt(virt.error));
    }
    remapping := remapping.(virt := virt.value);
    it := it + 1;
    if it == |parts| {
      return Failure(TooFewParts);
    }
    var size := Stoull(parts[it]);
    if size.Failure? {
      return Failure(BadSize(size.error));
    }
    remapping := remapping.(size := size.value * TWO_20 % TWO_64);
    it := it + 1;
    if it == |parts| {
      return Success(remappings + [remapping.(writable := true)]);
    }
    var item := parts[it];
    if LooksPhysical(item) {
      var phys := Stoull(item);
      if phys.Failure? {
        return Failure(BadPhys(phys.error));
      }
      remapping := remapping.(phys := phys.value);
      it := it + 1;
      if it == |parts| {
        return Success(remappings + [remapping.(writable := true)]);
      }
      item := parts[it];
    }
    var rights := ParseRights(item);
    if rights.None? {
      return Failure(BadRights);
    }
    remapping := remapping.(writable := rights.value.0, executable := rights.value.1);
    it := it + 1;
    if it != |parts| {
      return Failure(TooManyParts);
    }
    r := Success(remappings + [remapping]);
  }

  // ---------------------------------------------------------------- round trips

  /** A remapping that the option can express: 64-bit addresses and a size of whole megabytes below 2^64 bytes. */
  predicate Expressible(m: Remapping) {
    m.virt < TWO_64 && m.phys < TWO_64 && m.size < TWO_64 && m.size % TWO_20 == 0
  }

  /** The parts of a remapping written out in full, with each number in decimal or hexadecimal. */
  function Parts(m: Remapping, r: bool, hex: (bool, bool, bool)): seq<string> {
    [Numeral(m.virt, hex.0), Numeral(m.size / TWO_20, hex.1), Numeral(m.phys, hex.2), Rights(r, m.writable, m.executable)]
  }

  function Print(m: Remapping, r: bool, hex: (bool, bool, bool)): string {
    Split.Join(Parts(m, r, hex), ':')
  }

  lemma NumeralShape(n: nat, hex: bool)
    ensures ':' !in Numeral(n, hex) && LooksPhysical(Numeral(n, hex))
  {
    var base := if hex then 16 else 10;
    var d := Digits(n, base);
    DigitsShape(n, base);
    assert DigitValue(':') == 36;
    assert forall i | 0 <= i < |d| :: DigitValue(d[i]) < base;
    assert !hex ==> IsDecimal(d[0]);
  }

  lemma ParseOfParts(a: string, b: string, c: string, d: string, m: Remapping, mb: nat)
    requires ':' !in a && ':' !in b && ':' !in c && ':' !in d && LooksPhysical(c)
    requires Stoull(a) == Success(m.virt) && Stoull(b) == Success(mb) && Stoull(c) == Success(m.phys)
    requires ParseRights(d) == Some((m.writable, m.executable)) && mb * TWO_20 % TWO_64 == m.size
    ensures Parse(Split.Join([a, b, c, d], ':')) == Success(m)
  {
    var parts := [a, b, c, d];
    Split.PiecesOfJoin(parts, ':');
    assert Parse(Split.Join(parts, ':')) == OfParts(parts);
    assert parts[2..] == [c, d] && [c, d][1..] == [d];
    var r := Remapping(m.virt, 0, m.size, false, false);
    assert OfParts(parts) == ParseTail([c, d], r);
    assert ParseTail([c, d], r) == ParseLast([d], r.(phys := m.phys));
  }

  /** The shorter forms: the physical address defaults to zero, and without rights the memory is writable. */
  lemma ShortForms(a: string, b: string, c: string, virt: nat, mb: nat, phys: nat)
    requires ':' !in a && ':' !in b && ':' !in c
    requires Stoull(a) == Success(virt) && Stoull(b) == Success(mb)
    ensures var size := mb * TWO_20 % TWO_64;
            && Parse(Split.Join([a, b], ':')) == Success(Remapping(virt, 0, size, true, false))
            && (LooksPhysical(c) && Stoull(c) == Success(phys) ==>
                  Parse(Split.Join([a, b, c], ':')) == Success(Remapping(virt, phys, size, true, false)))
            && (!LooksPhysical(c) && ParseRights(c).Some? ==>
                  Parse(Split.Join([a, b, c], ':')) == Success(Remapping(virt, 0, size, 'w' in c, 'x' in c)))
  {
    var two, three := [a, b], [a, b, c];
    Split.PiecesOfJoin(two, ':');
    Split.PiecesOfJoin(three, ':');
    assert two[2..] == [] && three[2..] == [c];
  }

  /** What is rejected, and why: the first part that cannot be read, a missing size, or a part too many. */
  lemma Rejections(parts: seq<string>)
    requires parts != [] && Split.Free(parts, ':')
    ensures var r := Parse(Split.Join(parts, ':'));
            if Stoull(parts[0]).Failure? then r == Failure(BadVirt(Stoull(parts[0]).error))
            else if |parts| == 1 then r == Failure(TooFewParts)
            else if Stoull(parts[1]).Failure? then r == Failure(BadSize(Stoull(parts[1]).error))
            else if |parts| == 2 then r.Success?
            else if LooksPhysical(parts[2]) && Stoull(parts[2]).Failure? then r == Failure(BadPhys(Stoull(parts[2]).error))
            else
              var k := if LooksPhysical(parts[2]) then 3 else 2; // where the rights are
              if |parts| == k then r.Success?
              else if ParseRights(parts[k]).None? then r == Failure(BadRights)
              else if |parts| > k + 1 then r == Failure(TooManyParts)
              else r.Success?
  {
    Split.PiecesOfJoin(parts, ':');
    assert Parse(Split.Join(parts, ':')) == OfParts(parts);
    if |parts| >= 3 {
      assert parts[2..][0] == parts[2];
      assert parts[2..][1..] == parts[3..];
    }
  }

  /** Reading what was printed restores the remapping, whatever the notation. */
  lemma ParseOfPrint(m: Remapping, r: bool, hex: (bool, bool, bool))
    requires Expressible(m)
    ensures Parse(Print(m, r, hex)) == Success(m)
  {
    var mb := m.size / TWO_20;
    MegabytesBack(m.size);
    NumeralShape(m.virt, hex.0);
    NumeralShape(mb, hex.1);
    NumeralShape(m.phys, hex.2);
    StoullOfNumeral(m.virt, hex.0);
    StoullOfNumeral(mb, hex.1);
    StoullOfNumeral(m.phys, hex.2);
    RightsShape(r, m.writable, m.executable);
    ParseOfParts(Numeral(m.virt, hex.0), Numeral(mb, hex.1), Numeral(m.phys, hex.2), Rights(r, m.writable, m.executable), m, mb);
  }

  lemma MegabytesBack(size: nat)
    requires size < TWO_64 && size % TWO_20 == 0
    ensures size / TWO_20 < TWO_64 && size / TWO_20 * TWO_20 % TWO_64 == size
  {}

  lemma RightsShape(r: bool, w: bool, x: bool)
    ensures ParseRights(Rights(r, w, x)) == Some((w, x))
    ensures ':' !in Rights(r, w, x)
  {}

  /** Anything accepted can be printed again: its addresses fit 64 bits and its size is whole megabytes. */
  lemma ParsedIsExpressible(remap: string)
    ensures Parse(remap).Success? ==> Expressible(Parse(remap).value)
  {
    var parts := Split.Pieces(remap, ':');
    StoullBelow(parts[0]);
    if |parts| > 1 && Stoull(parts[0]).Success? && Stoull(parts[1]).Success? {
      var mb := Stoull(parts[1]).value;
      WholeMegabytes(mb);
      var r := Remapping(Stoull(parts[0]).value, 0, mb * TWO_20 % TWO_64, false, false);
      TailIsExpressible(parts[2..], r);
      assert OfParts(parts) == ParseTail(parts[2..], r);
    }
  }

  lemma TailIsExpressible(parts: seq<string>, r: Remapping)
    requires Expressible(r)
    ensures ParseTail(parts, r).Success? ==> Expressible(ParseTail(parts, r).value)
  {
    if parts != [] {
      StoullBelow(parts[0]);
    }
  }

  lemma StoullBelow(s: string)
    ensures Stoull(s).Success? ==> Stoull(s).value < TWO_64
  {}

  lemma WholeMegabytes(mb: nat)
    ensures mb * TWO_20 % TWO_64 % TWO_20 == 0
  {}

  /** The size wraps around: it is the one that was asked for exactly when that fits 64 bits. */
  lemma SizeAsAsked(mb: nat)
    ensures mb * TWO_20 % TWO_64 == mb * TWO_20 <==> mb < TWO_44
  {}
}

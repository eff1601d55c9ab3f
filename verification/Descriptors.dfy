/** Descriptor numbers: a finite table always has room for one more. */
module Descriptors {
  lemma {:induction false} Above<T>(s: set<T>, rank: T -> int) returns (b: nat)
    ensures forall x | x in s :: rank(x) < b
    decreases |s|
  {
    b := 0;
    if x :| x in s {
      b := Above(s - {x}, rank);
      b := if rank(x) < b then b else if rank(x) < 0 then 0 else rank(x) + 1;
    }
  }

  lemma NextDescriptor(open: set<int>) returns (v: int)
    ensures v >= 0 && v !in open
  {
    v := Above(open, (x: int) => x);
  }
}
